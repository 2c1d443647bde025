/** Whether a write that is refused for a new epoch is let through when it is retried. */
module Progress {
  import opened Outcomes
  import opened Lists
  import opened TranslationTables
  import opened PageTables
  import opened PageTableInvariants
  import opened Controllers
  import opened ControllerInvariants
  import opened Checkpoints
  import opened Migration
  import opened Runs
  import opened RunProofs
  import opened Theorems
  import opened Eviction

  // ----- a controller that no store has used -----

  /** No block has an entry and no page is in DRAM. */
  ghost predicate Unused(s: State) {
    s.att.index == map[] && s.ptt.pages == map[]
  }

  lemma UnusedTable(s: State)
    requires TableOk(s.att) && Unused(s)
    ensures forall i :: 0 <= i < |s.att.entries| ==> s.att.entries[i].state == Free
    ensures Queue(s.att, Clean) == [] && Queue(s.att, Loan) == [] && Queue(s.att, Dirty) == []
    ensures |s.att.entries| == 0 ==> Queue(s.att, Free) == []
  {
    forall i: nat | i < |s.att.entries| ensures s.att.entries[i].state == Free {
      assert Indexed(s.att, i);
    }
    SettledQueues(s.att);
    assert EntriesIn(s.att.entries, 0) == {};
    ListingCardinality(s.att.queues[0], EntriesIn(s.att.entries, 0));
    if |s.att.entries| == 0 {
      assert EntriesIn(s.att.entries, 2) == {};
      ListingCardinality(s.att.queues[2], EntriesIn(s.att.entries, 2));
    }
  }

  /** Without entries there is no room for a store. */
  lemma NoRoom(s: State, x: nat)
    requires TableOk(s.att) && Unused(s) && |s.att.entries| == 0
    ensures !HasRoom(s, x)
  {
    UnusedTable(s);
  }

  lemma {:induction false} MigrateUnused(s: State, op: Op, t: State)
    requires Inv(s) && Idle(s.ptt) && Unused(s) && op.Migrate? && Orders(s, op.nvmOrder, op.dramOrder)
    requires MigratePages(s, op.dr, op.wr, op.nvmOrder, op.dramOrder) == Ok(t)
    ensures t.ptt.pages == map[]
  {
    UnusedTable(s);
    assert RevokeLoans(s, []) == Ok(s);
    var es := s.att.entries;
    assert ActivePages(es, |es|, s.ptt.pageBlocks) == {};
    ListingCardinality(op.nvmOrder, {});
    ListingCardinality(op.dramOrder, {});
    var s2 := MigrateInput(s, [], []).value;
    assert s2.ptt.nvmHeap == [] && s2.ptt.dramHeap == [] && s2.ptt.pages == map[];
    LoopsIdle(s2, CountFrom(op.dr, s.ptt.pageBlocks), CountUpTo(op.wr, s.ptt.pageBlocks), t);
  }

  lemma LoopsIdle(s: State, dirtyMin: int, writeMax: int, t: State)
    requires s.ptt.nvmHeap == [] && s.ptt.dramHeap == [] && MigrateLoops(s, dirtyMin, writeMax) == Ok(t)
    ensures t == s
  {
  }

  lemma {:induction false} BeginUnused(s: State, t: State)
    requires TableOk(s.att) && Unused(s) && BeginCheckpointing(s) == Ok(t)
    ensures t.ptt.pages == map[]
  {
    UnusedTable(s);
    assert CleanEntries(s, []) == Ok(s);
  }

  lemma LoadUnused(s: State, addr: nat, t: State)
    requires Unused(s) && Step(s, Load(addr)) == Ok(t)
    ensures t.ptt.pages == map[]
  {
  }

  /** Everything but a store leaves it unused. */
  lemma {:induction false} StepUnused(s: State, h: History, op: Op, t: State)
    requires Good(s, h) && Unused(s) && Allowed(s, op) && !op.Store? && Step(s, op) == Ok(t)
    ensures Unused(t)
  {
    MadeSelf(s.att, false);
    StepMade(s.att, false, s, op, t);
    MadeFewer(s.att, t.att);
    assert t.att.index.Keys == {};
    match op
    case Load(addr) => LoadUnused(s, addr, t);
    case Migrate(_, _, _, _) => MigrateUnused(s, op, t);
    case Begin => BeginUnused(s, t);
    case Finish =>
  }

  /** So does every run without stores; and without entries there are none. */
  lemma {:induction false} RunUnused(c: Config, ops: seq<Op>) returns (d: Config)
    requires Starts(c) && Protocol(c, ops) && (StoresNone(ops) || |c.s.att.entries| == 0)
    ensures Reached(c, ops, d) && Unused(d.s)
    decreases |ops|
  {
    d := RunsAreGood(c, ops);
    if ops != [] {
      var front, op := ops[..|ops| - 1], ops[|ops| - 1];
      assert Protocol(c, front);
      var m := RunUnused(c, front);
      if op.Store? {
        NoRoom(m.s, BlockOf(op.addr, m.s.blockSize));
        assert false;
      }
      StepUnused(m.s, m.h, op, d.s);
    }
  }

  /** Before any store, what Probe answers while running is the same after every run: a new epoch forever
      if the table has no entries or the page table no pages, and never otherwise. */
  lemma {:induction false} BeforeAnyStore(c: Config, ops: seq<Op>, x: nat) returns (d: Config)
    requires Starts(c) && Protocol(c, ops) && StoresNone(ops)
    ensures Exec(c, ops) == Ok(d) && |d.s.att.queues| == 4
    ensures !d.s.ckpt ==> (Probe(d.s, x) == NewEpoch <==> |c.s.att.entries| == 0 || c.s.ptt.length == 0)
  {
    d := RunUnused(c, ops);
    UnusedTable(d.s);
    assert DirtyPages(d.s.ptt.pages) == {};
    if !d.s.ckpt {
      SettledAdmits(d.s, x);
    }
  }

  // ----- the retry -----

  lemma BeginClears(s: State, t: State)
    requires BeginCheckpointing(s) == Ok(t)
    ensures t.ptt.dirty == 0
  {
  }

  lemma FinishKeeps(s: State, t: State)
    requires FinishCheckpointing(s) == Ok(t)
    ensures t.att == s.att && t.ptt == s.ptt && !t.ckpt
  {
  }

  /** Right after a checkpoint that ended as soon as it had begun, the answer of Probe. */
  lemma {:induction false} FinishAdmits(c: Config, ops: seq<Op>, x: nat) returns (d: Config)
    requires Starts(c) && Protocol(c, ops) && |ops| >= 2 && ops[|ops| - 2] == Begin && ops[|ops| - 1] == Finish
    ensures Exec(c, ops) == Ok(d) && |d.s.att.queues| == 4
    ensures Probe(d.s, x) == RegWrite <==>
      IsDram(d.s, x) || x in d.s.att.index || (|c.s.att.entries| > 0 && c.s.ptt.length > 0)
  {
    d := RunsAreGood(c, ops);
    var front := ops[..|ops| - 1];
    assert Protocol(c, front);
    var m := RunProofs.Front(c, front);
    var b := BeginReached(c, front, m);
    ExecPlainly(c, front, b);
    ExecPlainly(c, front[..|front| - 1], m);
    BeginClears(m.s, b.s);
    FinishKeeps(b.s, d.s);
    SettledAdmits(d.s, x);
  }

  /** Calls other than stores bring no new tag. */
  lemma {:induction false} SuffixMade(c: Config, ops: seq<Op>, n: nat, m: Config, d: Config)
    requires n <= |ops| && Exec(c, ops[..n]) == Ok(m) && Exec(c, ops) == Ok(d)
    requires forall k :: n <= k < |ops| ==> !ops[k].Store?
    ensures Made(m.s.att, d.s.att, false)
    decreases |ops|
  {
    if n == |ops| {
      assert ops[..n] == ops;
      MadeSelf(m.s.att, false);
    } else {
      var front := ops[..|ops| - 1];
      assert front[..n] == ops[..n];
      var e := Exec(c, front).value;
      SuffixMade(c, front, n, m, e);
      StepMade(m.s.att, false, e.s, ops[|ops| - 1], d.s);
    }
  }

  /** A page table without pages holds none. */
  lemma NoneFit(p: Ptt)
    requires PttOk(p) && p.length == 0
    ensures p.pages == map[]
  {
  }

  /** What the driver does when Probe asks for a new epoch: migrate, begin, and, with nothing to flush,
      finish before the write is retried. */
  ghost function Epoch(ops: seq<Op>, move: Op, pending: bool): seq<Op> {
    ops + [move, Begin] + if pending then [] else [Finish]
  }

  lemma {:induction false} WithoutPages(c: Config, ops: seq<Op>, d: Config, x: nat)
    requires Starts(c) && Protocol(c, ops) && Reached(c, ops, d)
    requires |c.s.att.entries| == 0 || c.s.ptt.length == 0
    ensures !IsDram(d.s, x)
  {
    if c.s.ptt.length == 0 {
      NoneFit(d.s.ptt);
    } else {
      var e := RunUnused(c, ops);
    }
  }

  lemma {:induction false} FinishedRetry(c: Config, ops: seq<Op>, n: nat, m: Config, d: Config, x: nat)
    requires Starts(c) && Protocol(c, ops) && Reached(c, ops, d)
    requires n <= |ops| && Exec(c, ops[..n]) == Ok(m) && x !in m.s.att.index
    requires forall k :: n <= k < |ops| ==> !ops[k].Store?
    requires |ops| >= 2 && ops[|ops| - 2] == Begin && ops[|ops| - 1] == Finish
    ensures Probe(d.s, x) == RegWrite <==> |c.s.att.entries| > 0 && c.s.ptt.length > 0
  {
    var e := FinishAdmits(c, ops, x);
    SuffixMade(c, ops, n, m, d);
    MadeFewer(m.s.att, d.s.att);
    if |c.s.att.entries| == 0 || c.s.ptt.length == 0 {
      WithoutPages(c, ops, d, x);
    }
  }

  /** `all` ends with the calls of an epoch, from position `n`. */
  ghost predicate EndsEpoch(all: seq<Op>, n: nat, pending: bool) {
    && n + 2 <= |all| && (forall k :: n <= k < |all| ==> !all[k].Store?)
    && if pending then all[|all| - 1] == Begin else all[|all| - 2] == Begin && all[|all| - 1] == Finish
  }

  lemma EpochEnds(ops: seq<Op>, move: Op, pending: bool)
    requires move.Migrate?
    ensures Epoch(ops, move, pending)[..|ops|] == ops && EndsEpoch(Epoch(ops, move, pending), |ops|, pending)
  {
  }

  lemma {:induction false} RetryEnds(c: Config, all: seq<Op>, n: nat, pending: bool, x: nat) returns (m: Config, d: Config)
    requires Starts(c) && Protocol(c, all) && EndsEpoch(all, n, pending)
    ensures Exec(c, all[..n]) == Ok(m) && Exec(c, all) == Ok(d)
    ensures |m.s.att.queues| == 4 && |d.s.att.queues| == 4
    ensures Probe(m.s, x) == NewEpoch ==>
      (Probe(d.s, x) == RegWrite <==> |c.s.att.entries| > 0 && (pending || c.s.ptt.length > 0))
  {
    ProtocolPrefix(c, all, n);
    m := RunsAreGood(c, all[..n]);
    d := RunsAreGood(c, all);
    if pending {
      var e := NewEpochAdmits(c, all, x);
    } else if Probe(m.s, x) == NewEpoch {
      FinishedRetry(c, all, n, m, d, x);
    }
  }

  /** A write refused for a new epoch is let through when it is retried exactly if the table has entries
      and either the checkpoint is still under way or the page table has pages. */
  lemma {:induction false} RetryAdmitted(c: Config, ops: seq<Op>, move: Op, pending: bool, x: nat)
    returns (m: Config, d: Config)
    requires Starts(c) && Protocol(c, Epoch(ops, move, pending)) && move.Migrate?
    ensures Exec(c, ops) == Ok(m) && Exec(c, Epoch(ops, move, pending)) == Ok(d)
    ensures |m.s.att.queues| == 4 && |d.s.att.queues| == 4
    ensures Probe(m.s, x) == NewEpoch ==>
      (Probe(d.s, x) == RegWrite <==> |c.s.att.entries| > 0 && (pending || c.s.ptt.length > 0))
  {
    EpochEnds(ops, move, pending);
    m, d := RetryEnds(c, Epoch(ops, move, pending), |ops|, pending, x);
  }
}
