/** The controller changes its table only by table operations, so eviction takes the entry used longest ago. */
module Eviction {
  import opened Outcomes
  import opened TranslationTables
  import opened PageTables
  import opened Controllers
  import opened Runs
  import opened RunProofs
  import opened Theorems
  import opened Lru

  /** The table after `ops`, from `a`. */
  ghost function From(a: Table, ops: seq<TableOp>): Outcome<Table>
    decreases |ops|
  {
    if ops == [] then Ok(a)
    else
      var t :- From(a, ops[..|ops| - 1]);
      Apply(t, ops[|ops| - 1])
  }

  /** No operation of `ops` gives an entry to a new tag. */
  ghost predicate InsertsNone(ops: seq<TableOp>) {
    forall k :: 0 <= k < |ops| ==> !ops[k].Insert?
  }

  /** `b` comes from `a` by table operations alone, and unless `grow` without a new tag. */
  ghost predicate Made(a: Table, b: Table, grow: bool) {
    exists ops :: From(a, ops) == Ok(b) && (grow || InsertsNone(ops))
  }

  lemma MadeSelf(a: Table, grow: bool)
    ensures Made(a, a, grow)
  {
    assert From(a, []) == Ok(a) && InsertsNone([]);
  }

  lemma {:induction false} MadeBy(a: Table, grow: bool, t: Table, op: TableOp, u: Table)
    requires Made(a, t, grow) && Apply(t, op) == Ok(u) && (op.Insert? ==> grow)
    ensures Made(a, u, grow)
  {
    var ops :| From(a, ops) == Ok(t) && (grow || InsertsNone(ops));
    var more := ops + [op];
    assert more[..|more| - 1] == ops;
    assert From(a, more) == Ok(u);
    assert grow || InsertsNone(more);
  }

  lemma {:induction false} AfterIsFrom(n: nat, ops: seq<TableOp>)
    ensures After(n, ops) == From(Fresh(n), ops)
    decreases |ops|
  {
    if ops != [] {
      AfterIsFrom(n, ops[..|ops| - 1]);
    }
  }

  /** Without a new tag, tags can only go. */
  lemma {:induction false} FromFewer(a: Table, ops: seq<TableOp>, b: Table)
    requires From(a, ops) == Ok(b) && InsertsNone(ops)
    ensures b.index.Keys <= a.index.Keys
    decreases |ops|
  {
    if ops != [] {
      FromFewer(a, ops[..|ops| - 1], From(a, ops[..|ops| - 1]).value);
    }
  }

  lemma {:induction false} MadeFewer(a: Table, b: Table)
    requires Made(a, b, false)
    ensures b.index.Keys <= a.index.Keys
  {
    var ops :| From(a, ops) == Ok(b) && InsertsNone(ops);
    FromFewer(a, ops, b);
  }

  // ----- entry transitions -----

  lemma MadeSetup(a: Table, grow: bool, s: State, tag: nat, base: nat, st: EntryState, move: bool)
    requires grow && Made(a, s.att, grow) && Controllers.Setup(s, tag, base, st, move).Ok?
    ensures Made(a, Controllers.Setup(s, tag, base, st, move).value.0.att, grow)
  {
    MadeBy(a, grow, s.att, Insert(tag, base, st), Controllers.Setup(s, tag, base, st, move).value.0.att);
  }

  lemma MadeHideClean(a: Table, grow: bool, s: State, i: nat, move: bool)
    requires Made(a, s.att, grow) && HideClean(s, i, move).Ok?
    ensures Made(a, HideClean(s, i, move).value.att, grow)
  {
    MadeBy(a, grow, s.att, Rebase(i, s.att.entries[i].tag, Hidden), HideClean(s, i, move).value.att);
  }

  lemma MadeResetClean(a: Table, grow: bool, s: State, i: nat, move: bool)
    requires Made(a, s.att, grow) && ResetClean(s, i, move).Ok?
    ensures Made(a, ResetClean(s, i, move).value.0.att, grow)
  {
    var (t, base) := ResetClean(s, i, move).value;
    MadeBy(a, grow, s.att, Rebase(i, base, Temp), t.att);
  }

  lemma MadeFreeClean(a: Table, grow: bool, s: State, i: nat)
    requires Made(a, s.att, grow) && FreeClean(s, i).Ok?
    ensures Made(a, FreeClean(s, i).value.att, grow)
  {
    MadeBy(a, grow, s.att, Shift(i, Free), FreeClean(s, i).value.att);
  }

  lemma MadeDirtyStained(a: Table, grow: bool, s: State, i: nat, move: bool)
    requires Made(a, s.att, grow) && DirtyStained(s, i, move).Ok?
    ensures Made(a, DirtyStained(s, i, move).value.0.att, grow)
  {
    var (t, base) := DirtyStained(s, i, move).value;
    MadeBy(a, grow, s.att, Rebase(i, base, Dirty), t.att);
  }

  lemma MadeFreeLoan(a: Table, grow: bool, s: State, i: nat, move: bool)
    requires Made(a, s.att, grow) && FreeLoan(s, i, move).Ok?
    ensures Made(a, FreeLoan(s, i, move).value.att, grow)
  {
    MadeBy(a, grow, s.att, Shift(i, Free), FreeLoan(s, i, move).value.att);
  }

  lemma MadeHideTemp(a: Table, grow: bool, s: State, i: nat, move: bool)
    requires Made(a, s.att, grow) && HideTemp(s, i, move).Ok?
    ensures Made(a, HideTemp(s, i, move).value.att, grow)
  {
    MadeBy(a, grow, s.att, Rebase(i, s.att.entries[i].tag, Hidden), HideTemp(s, i, move).value.att);
  }

  lemma MadeLookup(a: Table, grow: bool, t: Table, tag: nat)
    requires Made(a, t, grow) && Lookup(t, tag).Ok?
    ensures Made(a, Lookup(t, tag).value.0, grow)
  {
    MadeBy(a, grow, t, Find(tag), Lookup(t, tag).value.0);
  }

  // ----- loads and stores -----

  lemma MadeLoad(a: Table, grow: bool, s: State, tag: nat)
    requires Made(a, s.att, grow) && LoadBlock(s, tag).Ok?
    ensures Made(a, LoadBlock(s, tag).value.0.att, grow)
  {
    MadeLookup(a, grow, s.att, tag);
    var (att, hit) := Lookup(s.att, tag).value;
    if hit.Some? {
      MadeBy(a, grow, att, CountRead(hit.value), LoadBlock(s, tag).value.0.att);
    }
  }

  lemma MadeEvictClean(a: Table, grow: bool, s: State)
    requires Made(a, s.att, grow) && EvictClean(s).Ok?
    ensures Made(a, EvictClean(s).value.att, grow)
  {
    if Queue(s.att, Free) == [] {
      MadeFreeClean(a, grow, s, Queue(s.att, Clean)[0]);
    }
  }

  lemma MadeEvictAny(a: Table, grow: bool, s: State)
    requires Made(a, s.att, grow) && EvictAny(s).Ok?
    ensures Made(a, EvictAny(s).value.att, grow)
  {
    if Queue(s.att, Free) == [] {
      if Queue(s.att, Loan) != [] {
        MadeFreeLoan(a, grow, s, Queue(s.att, Loan)[0], true);
      } else {
        MadeFreeClean(a, grow, s, Queue(s.att, Clean)[0]);
      }
    }
  }

  lemma MadeDramStore(a: Table, grow: bool, s: State, tag: nat, full: bool)
    requires grow && Made(a, s.att, grow) && DramStore(s, tag, full).Ok?
    ensures Made(a, DramStore(s, tag, full).value.0.att, grow)
  {
    MadeLookup(a, grow, s.att, tag);
    var (att, hit) := Lookup(s.att, tag).value;
    var s1 := s.(att := att);
    if hit.Some? {
      if !s.ckpt {
        MadeFreeLoan(a, grow, Hit(s1), hit.value, !full);
      }
    } else if s.ckpt {
      MadeEvictClean(a, grow, s1);
      var s2 := EvictClean(s1).value;
      var (dram, base) := VersionBuffers.Alloc(s2.dram).value;
      MadeSetup(a, grow, s2.(dram := dram), tag, base, Loan, !full);
    }
  }

  lemma MadeHit(a: Table, grow: bool, s: State, i: nat, tag: nat, full: bool)
    requires Made(a, s.att, grow)
    ensures NvmHitCkpt(s, i, full).Ok? ==> Made(a, NvmHitCkpt(s, i, full).value.0.att, grow)
    ensures NvmHitRunning(s, i, tag, full).Ok? ==> Made(a, NvmHitRunning(s, i, tag, full).value.0.att, grow)
  {
    if ResetClean(s, i, !full).Ok? {
      MadeResetClean(a, grow, s, i, !full);
    }
    if HideTemp(s, i, !full).Ok? {
      MadeHideTemp(a, grow, s, i, !full);
    }
    if DirtyStained(s, i, !full).Ok? {
      MadeDirtyStained(a, grow, s, i, !full);
    }
    if HideClean(s, i, !full).Ok? {
      MadeHideClean(a, grow, s, i, !full);
    }
  }

  lemma MadeMissRunning(a: Table, grow: bool, s: State, tag: nat, full: bool)
    requires grow && Made(a, s.att, grow) && NvmMissRunning(s, tag, full).Ok?
    ensures Made(a, NvmMissRunning(s, tag, full).value.0.att, grow)
  {
    MadeEvictAny(a, grow, s);
    var s1 := EvictAny(s).value;
    var (nvm, base) := VersionBuffers.Alloc(s1.nvm).value;
    MadeSetup(a, grow, s1.(nvm := nvm), tag, base, Dirty, !full);
  }

  lemma MadeMissCkpt(a: Table, grow: bool, s: State, tag: nat, full: bool)
    requires grow && Made(a, s.att, grow) && NvmMissCkpt(s, tag, full).Ok?
    ensures Made(a, NvmMissCkpt(s, tag, full).value.0.att, grow)
  {
    MadeEvictClean(a, grow, s);
    var s1 := EvictClean(s).value;
    var (dram, base) := VersionBuffers.Alloc(s1.dram).value;
    MadeSetup(a, grow, s1.(dram := dram), tag, base, Stained, !full);
  }

  lemma MadeNvmStore(a: Table, grow: bool, s: State, tag: nat, full: bool)
    requires grow && Made(a, s.att, grow) && NvmStore(s, tag, full).Ok?
    ensures Made(a, NvmStore(s, tag, full).value.0.att, grow)
  {
    MadeLookup(a, grow, s.att, tag);
    var (att, hit) := Lookup(s.att, tag).value;
    var s1, t := s.(att := att), NvmStore(s, tag, full).value.0;
    if hit.Some? {
      MadeHit(a, grow, Hit(s1), hit.value, tag, full);
      var r := if s.ckpt then NvmHitCkpt(Hit(s1), hit.value, full) else NvmHitRunning(Hit(s1), hit.value, tag, full);
      MadeBy(a, grow, r.value.0.att, CountWrite(hit.value), t.att);
    } else if s.ckpt {
      MadeMissCkpt(a, grow, s1, tag, full);
      var (s2, i, base) := NvmMissCkpt(s1, tag, full).value;
      MadeBy(a, grow, s2.att, CountWrite(i), t.att);
    } else {
      MadeMissRunning(a, grow, s1, tag, full);
      var (s2, i, base) := NvmMissRunning(s1, tag, full).value;
      MadeBy(a, grow, s2.att, CountWrite(i), t.att);
    }
  }

  lemma MadeStore(a: Table, grow: bool, s: State, tag: nat, full: bool)
    requires grow && Made(a, s.att, grow) && StoreBlock(s, tag, full).Ok?
    ensures Made(a, StoreBlock(s, tag, full).value.0.att, grow)
  {
    var (m, dram) := RouteStore(s, tag).value;
    if dram {
      MadeDramStore(a, grow, m, tag, full);
    } else {
      MadeNvmStore(a, grow, m, tag, full);
    }
  }

  // ----- checkpoints -----

  lemma MadeCleanEntry(a: Table, grow: bool, s: State, i: nat)
    requires Made(a, s.att, grow) && CleanEntry(s, i).Ok?
    ensures Made(a, CleanEntry(s, i).value.att, grow)
  {
    var s1 := s;
    if s.att.entries[i].state == Stained {
      MadeDirtyStained(a, grow, s, i, true);
      s1 := DirtyStained(s, i, true).value.0;
    } else if s.att.entries[i].state == Temp {
      MadeHideTemp(a, grow, s, i, true);
      s1 := HideTemp(s, i, true).value;
    }
    var st := s1.att.entries[i].state;
    if st == Dirty || st == Hidden {
      MadeBy(a, grow, s1.att, Shift(i, if st == Dirty then Clean else Free), CleanEntry(s, i).value.att);
    }
  }

  lemma {:induction false} MadeCleanEntries(a: Table, grow: bool, s: State, q: seq<nat>)
    requires Made(a, s.att, grow) && CleanEntries(s, q).Ok?
    ensures Made(a, CleanEntries(s, q).value.att, grow)
    decreases |q|
  {
    if q != [] {
      MadeCleanEntry(a, grow, s, q[0]);
      MadeCleanEntries(a, grow, CleanEntry(s, q[0]).value, q[1..]);
    }
  }

  lemma MadeBegin(a: Table, grow: bool, s: State)
    requires Made(a, s.att, grow) && BeginCheckpointing(s).Ok?
    ensures Made(a, BeginCheckpointing(s).value.att, grow)
  {
    var q := Queue(s.att, Dirty);
    MadeCleanEntries(a, grow, s, q);
    var s1 := CleanEntries(s, q).value;
    MadeBy(a, grow, s1.att, ClearCounts, ClearStats(s1.att));
  }

  // ----- migration -----

  lemma MadeSendHome(a: Table, grow: bool, s: State, i: nat)
    requires Made(a, s.att, grow) && SendHome(s, i).Ok?
    ensures Made(a, SendHome(s, i).value.att, grow)
  {
    MadeBy(a, grow, s.att, Shift(i, Free), SendHome(s, i).value.att);
  }

  lemma {:induction false} MadeEvictBlocks(a: Table, grow: bool, s: State, tag: nat, left: nat)
    requires Made(a, s.att, grow) && EvictBlocks(s, tag, left).Ok?
    ensures Made(a, EvictBlocks(s, tag, left).value.att, grow)
    decreases left
  {
    if left != 0 {
      MadeLookup(a, grow, s.att, tag);
      var (att, hit) := Lookup(s.att, tag).value;
      if hit.Some? {
        MadeSendHome(a, grow, s.(att := att), hit.value);
      }
      MadeEvictBlocks(a, grow, EvictBlock(s, tag).value, tag + 1, left - 1);
    }
  }

  lemma MadeMigrateNvm(a: Table, grow: bool, s: State, n: NvmStats)
    requires Made(a, s.att, grow) && MigrateNvm(s, n).Ok?
    ensures Made(a, MigrateNvm(s, n).value.att, grow)
  {
    MadeEvictBlocks(a, grow, s, FirstBlock(n.page, s.ptt.pageBlocks), s.ptt.pageBlocks);
  }

  lemma {:induction false} MadeRevoke(a: Table, grow: bool, s: State, q: seq<nat>)
    requires Made(a, s.att, grow) && RevokeLoans(s, q).Ok?
    ensures Made(a, RevokeLoans(s, q).value.att, grow)
    decreases |q|
  {
    if q != [] {
      MadeFreeLoan(a, grow, s, q[0], true);
      MadeRevoke(a, grow, FreeLoan(s, q[0], true).value, q[1..]);
    }
  }

  lemma {:induction false} MadeExchange(a: Table, grow: bool, s: State, dirtyMin: int)
    requires Made(a, s.att, grow) && ExchangePages(s, dirtyMin).Ok?
    ensures Made(a, ExchangePages(s, dirtyMin).value.0.att, grow)
    decreases |s.ptt.nvmHeap|
  {
    var x := ExtractNvm(s.ptt).value;
    if x.Some? && x.value.1.dirtyBlocks >= dirtyMin {
      var (ptt, n) := x.value;
      var s1 := s.(ptt := ptt);
      if |ptt.pages| < ptt.capacity || |ptt.pages| > ptt.capacity {
        MadeMigrateNvm(a, grow, s1, n);
        MadeExchange(a, grow, MigrateNvm(s1, n).value, dirtyMin);
      } else {
        var y := ExtractDram(ptt).value;
        if y.Some? && y.value.1.writes == 0 {
          var s3 := MigrateDram(s1.(ptt := y.value.0), y.value.1).value;
          MadeMigrateNvm(a, grow, s3, n);
          MadeExchange(a, grow, MigrateNvm(s3, n).value, dirtyMin);
        }
      }
    }
  }

  /** Returning pages leaves the table alone. */
  lemma {:induction false} ReturnKeeps(s: State, d: DramStats, limit: int, writeMax: int)
    requires ReturnPages(s, d, limit, writeMax).Ok?
    ensures ReturnPages(s, d, limit, writeMax).value.att == s.att
    decreases |s.ptt.dramHeap|
  {
    if d.writes == 0 {
      MoreKeeps(s, limit, writeMax);
    } else if d.writes <= writeMax {
      var s1 := MigrateDram(s, d).value;
      MoreKeeps(s1.(toNvm := s1.toNvm + 1), limit - 1, writeMax);
    }
  }

  lemma {:induction false} MoreKeeps(s: State, limit: int, writeMax: int)
    requires ReturnMore(s, limit, writeMax).Ok?
    ensures ReturnMore(s, limit, writeMax).value.att == s.att
    decreases |s.ptt.dramHeap|, 0
  {
    if limit != 0 {
      var y := ExtractDram(s.ptt).value;
      if y.Some? {
        ReturnKeeps(s.(ptt := y.value.0), y.value.1, limit, writeMax);
      }
    }
  }

  lemma {:induction false} MadeLoops(a: Table, grow: bool, s: State, dirtyMin: int, writeMax: int)
    requires Made(a, s.att, grow) && MigrateLoops(s, dirtyMin, writeMax).Ok?
    ensures Made(a, MigrateLoops(s, dirtyMin, writeMax).value.att, grow)
  {
    MadeExchange(a, grow, s, dirtyMin);
    var (m, exit) := ExchangePages(s, dirtyMin).value;
    var limit := m.ptt.capacity - m.ptt.length;
    if exit.Proceed? {
      if exit.ready.Some? {
        ReturnKeeps(m, exit.ready.value, limit, writeMax);
      } else {
        var y := ExtractDram(m.ptt).value;
        if y.Some? {
          ReturnKeeps(m.(ptt := y.value.0), y.value.1, limit, writeMax);
        }
      }
    }
  }

  lemma MadeMigrate(a: Table, grow: bool, s: State, op: Op, t: State)
    requires Made(a, s.att, grow) && op.Migrate? && MigratePages(s, op.dr, op.wr, op.nvmOrder, op.dramOrder) == Ok(t)
    ensures Made(a, t.att, grow)
  {
    MadeRevoke(a, grow, s, Queue(s.att, Loan));
    var s2 := MigrateInput(s, op.nvmOrder, op.dramOrder).value;
    MadeLoops(a, grow, s2, CountFrom(op.dr, s.ptt.pageBlocks), CountUpTo(op.wr, s.ptt.pageBlocks));
  }

  // ----- runs -----

  /** Every step changes the table by table operations alone, and only a store brings a new tag. */
  lemma {:induction false} StepMade(a: Table, grow: bool, s: State, op: Op, t: State)
    requires Made(a, s.att, grow) && Step(s, op) == Ok(t) && (op.Store? ==> grow)
    ensures Made(a, t.att, grow)
  {
    match op
    case Store(addr, data) =>
      MadeStore(a, grow, s, BlockOf(addr, s.blockSize), FullBlock(addr, |data|, s.blockSize));
    case Load(addr) => MadeLoad(a, grow, s, BlockOf(addr, s.blockSize));
    case Migrate(_, _, _, _) => MadeMigrate(a, grow, s, op, t);
    case Begin => MadeBegin(a, grow, s);
    case Finish =>
  }

  ghost predicate StoresNone(ops: seq<Op>) {
    forall k :: 0 <= k < |ops| ==> !ops[k].Store?
  }

  lemma {:induction false} RunMade(c: Config, ops: seq<Op>, d: Config, grow: bool)
    requires Starts(c) && Exec(c, ops) == Ok(d) && (grow || StoresNone(ops))
    ensures Made(Fresh(|c.s.att.entries|), d.s.att, grow)
    decreases |ops|
  {
    if ops == [] {
      MadeSelf(c.s.att, grow);
    } else {
      var m := Exec(c, ops[..|ops| - 1]).value;
      RunMade(c, ops[..|ops| - 1], m, grow);
      StepMade(Fresh(|c.s.att.entries|), grow, m.s, ops[|ops| - 1], d.s);
    }
  }

  // ----- victims -----

  /** Where eviction takes its victim from when no entry is free. */
  function VictimState(s: State): EntryState
    requires |s.att.queues| == 4
  {
    if !s.ckpt && Queue(s.att, Loan) != [] then Loan else Clean
  }

  /** Of the entries of `q`, `i` was used longest ago by `tops`. */
  ghost predicate OldestIn(n: nat, tops: seq<TableOp>, q: seq<nat>, i: nat) {
    forall j :: j in q && j != i ==> LastUse(n, tops, i) < LastUse(n, tops, j)
  }

  /** `t` is `a` with entry `i` recycled for tag `x`. */
  ghost predicate Recycles(a: Table, t: Table, x: nat, i: nat) {
    && x in t.index && t.index[x] == i && |t.entries| == |a.entries|
    && forall k :: 0 <= k < |a.entries| && k != i ==> t.entries[k] == a.entries[k]
  }

  /** A freed entry is the one to be had when there was none. */
  lemma OnlyFree(a: Table, i: nat, u: Table)
    requires |a.queues| == 4 && Queue(a, Free) == [] && ShiftState(a, i, Free) == Ok(u)
    ensures |u.queues| == 4 && Queue(u, Free) == [i] && |u.entries| == |a.entries|
    ensures forall k :: 0 <= k < |a.entries| && k != i ==> u.entries[k] == a.entries[k]
  {
    assert [] + [i] == [i];
  }

  lemma CleanVictim(s: State, t: State)
    requires |s.att.queues| == 4 && Queue(s.att, Free) == [] && s.ckpt && EvictClean(s) == Ok(t)
    ensures Queue(s.att, Clean) != [] && ShiftState(s.att, Queue(s.att, Clean)[0], Free) == Ok(t.att)
  {
  }

  lemma AnyVictim(s: State, t: State)
    requires |s.att.queues| == 4 && Queue(s.att, Free) == [] && !s.ckpt && EvictAny(s) == Ok(t)
    ensures Queue(s.att, VictimState(s)) != [] && ShiftState(s.att, Queue(s.att, VictimState(s))[0], Free) == Ok(t.att)
  {
  }

  /** The victim's entry is the one the new block gets. */
  lemma SetupRecycles(a: Table, i: nat, u: Table, s: State, x: nat, base: nat, st: EntryState, move: bool)
    requires |a.queues| == 4 && Queue(a, Free) == [] && ShiftState(a, i, Free) == Ok(u) && s.att == u
    requires Controllers.Setup(s, x, base, st, move).Ok?
    ensures var (t, k) := Controllers.Setup(s, x, base, st, move).value; k == i && Recycles(a, t.att, x, i)
  {
    OnlyFree(a, i, u);
  }

  lemma DramRecycles(s: State, x: nat, full: bool)
    requires |s.att.queues| == 4 && Queue(s.att, Free) == [] && x !in s.att.index && DramStore(s, x, full).Ok?
    ensures var t := DramStore(s, x, full).value.0; x in t.att.index ==>
      Queue(s.att, VictimState(s)) != [] && Recycles(s.att, t.att, x, Queue(s.att, VictimState(s))[0])
  {
    if s.ckpt {
      var m := EvictClean(s).value;
      CleanVictim(s, m);
      var (dram, base) := VersionBuffers.Alloc(m.dram).value;
      SetupRecycles(s.att, Queue(s.att, Clean)[0], m.att, m.(dram := dram), x, base, Loan, !full);
    }
  }

  lemma NvmRecycles(s: State, x: nat, full: bool)
    requires |s.att.queues| == 4 && Queue(s.att, Free) == [] && x !in s.att.index && NvmStore(s, x, full).Ok?
    ensures var t := NvmStore(s, x, full).value.0;
      Queue(s.att, VictimState(s)) != [] && Recycles(s.att, t.att, x, Queue(s.att, VictimState(s))[0])
  {
    if s.ckpt {
      var m := EvictClean(s).value;
      CleanVictim(s, m);
      var (dram, base) := VersionBuffers.Alloc(m.dram).value;
      SetupRecycles(s.att, Queue(s.att, Clean)[0], m.att, m.(dram := dram), x, base, Stained, !full);
    } else {
      var m := EvictAny(s).value;
      AnyVictim(s, m);
      var (nvm, base) := VersionBuffers.Alloc(m.nvm).value;
      SetupRecycles(s.att, Queue(s.att, VictimState(s))[0], m.att, m.(nvm := nvm), x, base, Dirty, !full);
    }
  }

  lemma StoreRecycles(s: State, x: nat, full: bool, t: State, to: nat)
    requires |s.att.queues| == 4 && Queue(s.att, Free) == [] && x !in s.att.index
    requires StoreBlock(s, x, full) == Ok((t, to)) && x in t.att.index
    ensures Queue(s.att, VictimState(s)) != [] && Recycles(s.att, t.att, x, Queue(s.att, VictimState(s))[0])
  {
    var (m, dram) := RouteStore(s, x).value;
    if dram {
      DramRecycles(m, x, full);
    } else {
      NvmRecycles(m, x, full);
    }
  }

  /** In every run, the table comes from a fresh one by table operations; and a store that must evict
      recycles, of the entries it may take, the one that any such operations used longest ago. */
  lemma {:induction false} OldestRecycled(c: Config, ops: seq<Op>, x: nat, full: bool) returns (d: Config)
    requires Starts(c) && Protocol(c, ops)
    ensures Exec(c, ops) == Ok(d) && |d.s.att.queues| == 4
    ensures exists tops :: After(|c.s.att.entries|, tops) == Ok(d.s.att)
    ensures var r := StoreBlock(d.s, x, full);
      r.Ok? && x !in d.s.att.index && x in r.value.0.att.index && Queue(d.s.att, Free) == [] ==>
        var q := Queue(d.s.att, VictimState(d.s));
        && q != [] && Recycles(d.s.att, r.value.0.att, x, q[0])
        && forall tops :: After(|c.s.att.entries|, tops) == Ok(d.s.att) ==> OldestIn(|c.s.att.entries|, tops, q, q[0])
  {
    var n := |c.s.att.entries|;
    d := RunsAreGood(c, ops);
    RunMade(c, ops, d, true);
    var tops :| From(Fresh(n), tops) == Ok(d.s.att);
    AfterIsFrom(n, tops);
    var r := StoreBlock(d.s, x, full);
    if r.Ok? && x !in d.s.att.index && x in r.value.0.att.index && Queue(d.s.att, Free) == [] {
      StoreRecycles(d.s, x, full, r.value.0, r.value.1);
      forall more | After(n, more) == Ok(d.s.att)
        ensures OldestIn(n, more, Queue(d.s.att, VictimState(d.s)), Queue(d.s.att, VictimState(d.s))[0])
      {
        FrontOldest(n, more, d.s.att, VictimState(d.s));
      }
    }
  }

  lemma {:induction false} FrontOldest(n: nat, tops: seq<TableOp>, a: Table, st: EntryState)
    requires After(n, tops) == Ok(a) && |a.queues| == 4 && Queue(a, st) != []
    ensures OldestIn(n, tops, Queue(a, st), Queue(a, st)[0])
  {
    forall j | j in Queue(a, st) && j != Queue(a, st)[0] ensures LastUse(n, tops, Queue(a, st)[0]) < LastUse(n, tops, j) {
      FrontIsOldest(n, tops, st, j);
    }
  }
}
