/** The entry of every block over whole runs: its state and its count follow from the stores of the epoch. */
module Tenures {
  import opened Outcomes
  import opened TranslationTables
  import opened PageTables
  import opened PageTableInvariants
  import opened Controllers
  import opened ControllerInvariants
  import opened Stores
  import opened Migration
  import opened Runs
  import opened RunProofs
  import opened Theorems
  import opened Recency
  import opened Rebalancing
  import opened Marks

  // ----- what a call does to an entry -----

  /** What a call does to the entry of block `y`, other than a migration. */
  ghost predicate MarkTurn(s: State, op: Op, t: State, y: nat) {
    match op
    case Store(addr, _) =>
      var x := BlockOf(addr, s.blockSize);
      if IsDram(s, x) then DramMarked(s, t, x, y) else NvmMarked(s, t, x, y)
    case Begin => MarkOf(t.att, y) == Mark(BegunState(MarkOf(s.att, y).state), 0)
    case Migrate(_, _, _, _) => true
    case _ => MarkOf(t.att, y) == MarkOf(s.att, y)
  }

  lemma DramEntry(s: State, x: nat)
    requires Inv(s) && Quiet(s) && IsDram(s, x) && x in s.att.index
    ensures MarkOf(s.att, x) == Mark(Loan, 0)
  {
    LiveTag(s, x);
    MappedBlock(s, x);
    assert QuietAt(s, s.att.index[x]);
  }

  lemma {:induction false} StoreMark(s: State, x: nat, full: bool, t: State, to: nat, y: nat)
    requires Inv(s) && Quiet(s) && StoreBlock(s, x, full) == Ok((t, to))
    ensures if IsDram(s, x) then DramMarked(s, t, x, y) else NvmMarked(s, t, x, y)
  {
    var (m, dram) := RouteStore(s, x).value;
    assert m.att == s.att && m.ckpt == s.ckpt && dram == IsDram(s, x);
    forall j ensures QuietAt(m, j) {
      assert QuietAt(s, j);
    }
    if dram {
      if x in s.att.index {
        DramEntry(s, x);
      }
      DramStoreMark(m, x, full, t, to, y);
    } else {
      NvmStoreMark(m, x, full, t, to, y);
    }
  }

  lemma {:induction false} StoreMarkTurn(s: State, addr: nat, data: seq<Byte>, t: State, y: nat)
    requires Inv(s) && Quiet(s) && StepYields(s, Store(addr, data), t)
    ensures MarkTurn(s, Store(addr, data), t, y)
  {
    var x, full := BlockOf(addr, s.blockSize), FullBlock(addr, |data|, s.blockSize);
    var u, to := StoredBlock(s, addr, data, t);
    UseStored(s, x, full, u, to, y);
  }

  lemma StoredBlock(s: State, addr: nat, data: seq<Byte>, t: State) returns (u: State, to: nat)
    requires StepYields(s, Store(addr, data), t)
    ensures StoreYields(s, BlockOf(addr, s.blockSize), FullBlock(addr, |data|, s.blockSize), u, to) && u.att == t.att
  {
    assert Unlocked(0);
    var r := StoreBlock(s, BlockOf(addr, s.blockSize), FullBlock(addr, |data|, s.blockSize));
    u, to := r.value.0, r.value.1;
  }

  lemma UseStored(s: State, x: nat, full: bool, u: State, to: nat, y: nat)
    requires Inv(s) && Quiet(s) && StoreYields(s, x, full, u, to)
    ensures if IsDram(s, x) then DramMarked(s, u, x, y) else NvmMarked(s, u, x, y)
  {
    assert Unlocked(0);
    StoreMark(s, x, full, u, to, y);
  }

  lemma {:induction false} LoadMarkTurn(s: State, addr: nat, t: State, y: nat)
    requires StepYields(s, Load(addr), t)
    ensures MarkOf(t.att, y) == MarkOf(s.att, y)
  {
    assert Unlocked(0);
  }

  lemma {:induction false} FinishMarkTurn(s: State, t: State, y: nat)
    requires StepYields(s, Finish, t)
    ensures MarkOf(t.att, y) == MarkOf(s.att, y)
  {
    assert Unlocked(0);
  }

  lemma {:induction false} BeginMark(s: State, t: State, y: nat)
    requires TableOk(s.att) && Queue(s.att, Loan) == [] && BeginCheckpointing(s) == Ok(t) && |t.att.entries| == |s.att.entries|
    ensures MarkOf(t.att, y) == Mark(BegunState(MarkOf(s.att, y).state), 0)
  {
    var m := CleanEntries(s, Queue(s.att, Dirty)).value;
    FlushOrder(s);
    FlushedMark(s.att, m.att, y);
    assert t.att == ClearStats(m.att);
    assert TagOk(m.att, y);
  }

  lemma {:induction false} BeginMarkTurn(s: State, h: History, t: State, y: nat)
    requires Good(s, h) && Allowed(s, Begin) && StepYields(s, Begin, t)
    ensures MarkTurn(s, Begin, t, y)
  {
    var u := BeginStepOk(s, h);
    SameStep(s, Begin, t, u);
    assert Unlocked(0);
    BeginMark(s, t, y);
  }

  lemma {:induction false} StepMark(s: State, h: History, op: Op, t: State, y: nat)
    requires Good(s, h) && Allowed(s, op) && StepYields(s, op, t) && (op.Store? ==> !s.ptt.nvmFilled)
    ensures MarkTurn(s, op, t, y)
  {
    match op
    case Store(addr, data) => StoreMarkTurn(s, addr, data, t, y);
    case Load(addr) => LoadMarkTurn(s, addr, t, y);
    case Migrate(_, _, _, _) =>
    case Begin => BeginMarkTurn(s, h, t, y);
    case Finish => FinishMarkTurn(s, t, y);
  }

  // ----- runs -----

  /** In this epoch, the stores to a block while its page was in NVM; whether it had an entry before the first
      of them, and whether one was made while running. */
  datatype Tenure = Tenure(stores: nat, kept: bool, ran: bool)

  ghost function TenureOf(c: Config, ops: seq<Op>, x: nat): Tenure
    decreases |ops|
  {
    if ops == [] || !Exec(c, ops).Ok? then Tenure(0, false, false)
    else NextTenure(TenureOf(c, ops[..|ops| - 1], x), Exec(c, ops[..|ops| - 1]).value.s, ops[|ops| - 1], x)
  }

  ghost function NextTenure(was: Tenure, s: State, op: Op, x: nat): Tenure {
    match op
    case Store(addr, _) =>
      if BlockOf(addr, s.blockSize) != x || IsDram(s, x) then was
      else Tenure(was.stores + 1, if was.stores == 0 then x in s.att.index else was.kept, was.ran || !s.ckpt)
    case Begin => Tenure(0, false, false)
    case _ => was
  }

  /** The entry counts the stores. It is clean, on loan or absent before the first; then, of a block that had
      an entry, temporary and, once it is stored to while running, hidden; of another, stained and then dirty. */
  ghost predicate Follow(m: Mark, f: Tenure) {
    && m.writes == f.stores && (f.ran ==> f.stores > 0)
    && if f.stores == 0 then Calm(m.state)
       else m.state == if f.kept then (if f.ran then Hidden else Temp) else if f.ran then Dirty else Stained
  }

  lemma MarkMapped(s: State, x: nat)
    requires Inv(s)
    ensures x in s.att.index <==> MarkOf(s.att, x).state != Free
    ensures x in s.att.index ==> (MarkOf(s.att, x).state == Loan <==> IsDram(s, x))
    ensures x in s.att.index && s.ckpt ==> MarkOf(s.att, x).state != Dirty && MarkOf(s.att, x).state != Hidden
  {
    LiveTag(s, x);
    if x in s.att.index {
      MappedBlock(s, x);
    }
  }

  lemma {:induction false} FollowNext(s: State, op: Op, t: State, x: nat, f: Tenure)
    requires Inv(s) && !op.Migrate? && MarkTurn(s, op, t, x) && (op != Begin ==> Follow(MarkOf(s.att, x), f))
    ensures Follow(MarkOf(t.att, x), NextTenure(f, s, op, x))
  {
    MarkMapped(s, x);
  }

  lemma {:induction false} TenureNext(c: Config, ops: seq<Op>, m: Config, d: Config, x: nat)
    requires ops != [] && ExecYields(c, ops[..|ops| - 1], m) && ExecYields(c, ops, d)
    ensures TenureOf(c, ops, x) == NextTenure(TenureOf(c, ops[..|ops| - 1], x), m.s, ops[|ops| - 1], x)
  {
    assert Unlocked(0);
  }

  lemma {:induction false} TenureReaches(c: Config, ops: seq<Op>, x: nat) returns (d: Config)
    requires Starts(c) && Protocol(c, ops)
    ensures Reaches(c, ops, d) && (!d.s.ptt.nvmFilled ==> Follow(MarkOf(d.s.att, x), TenureOf(c, ops, x)))
    decreases |ops|
  {
    d := RunReaches(c, ops);
    if ops == [] {
      OnceYields(c, ops, c, d);
    } else {
      var front, op := ops[..|ops| - 1], ops[|ops| - 1];
      var m := RunProofs.Front(c, ops);
      assert Protocol(c, front);
      var n := TenureReaches(c, front, x);
      ReachedOnce(c, front, m, n);
      UseGood(m);
      var t := StepOk(m.s, m.h, op);
      ExecUnfold(c, ops, m, t);
      OnceYields(c, ops, d, Config(t, Advance(m.h, m.s, op, t)));
      if !t.ptt.nvmFilled {
        StepMark(m.s, m.h, op, t, x);
        FollowNext(m.s, op, t, x, TenureOf(c, front, x));
        TenureNext(c, ops, m, d, x);
      }
    }
  }

  /** In every reachable state, but for those between a migration and the begin after it, the state and the
      count of every block's entry are those its stores in this epoch give. */
  lemma {:induction false} BlockTenures(c: Config, ops: seq<Op>, x: nat) returns (d: Config)
    requires Starts(c) && Protocol(c, ops)
    ensures Exec(c, ops) == Ok(d)
    ensures !d.s.ptt.nvmFilled ==> Follow(MarkOf(d.s.att, x), TenureOf(c, ops, x))
  {
    d := TenureReaches(c, ops, x);
    ExecPlainly(c, ops, d);
  }

  // ----- pages -----

  /** The blocks of page `g` that the run has stored to in this epoch, while the page was in NVM. */
  ghost function StoredBlocks(c: Config, ops: seq<Op>, g: nat, k: Positive): set<nat> {
    set x | FirstBlock(g, k) <= x < FirstBlock(g, k) + k && TenureOf(c, ops, x).stores > 0
  }

  lemma WrittenMark(s: State, g: nat, x: nat)
    requires TableOk(s.att) && Quiet(s)
    ensures x in WrittenBlocks(s.att.entries, |s.att.entries|, g, s.ptt.pageBlocks) <==>
      PageNumber(x, s.ptt.pageBlocks) == g && MarkOf(s.att, x).writes > 0
  {
    var es, k := s.att.entries, s.ptt.pageBlocks;
    assert TagOk(s.att, x);
    if x in WrittenBlocks(es, |es|, g, k) {
      var i :| 0 <= i < |es| && CountsFor(es, i, g, k) && es[i].epochWrites != 0 && es[i].tag == x;
      assert Indexed(s.att, i);
    }
    if PageNumber(x, k) == g && MarkOf(s.att, x).writes > 0 {
      var i := s.att.index[x];
      assert QuietAt(s, i);
      assert CountsFor(es, i, g, k);
    }
  }

  /** When a migration may be called, the blocks by which it weighs a page are those the run stored to. */
  lemma {:induction false} WeighedByStores(c: Config, ops: seq<Op>, g: nat) returns (d: Config)
    requires Starts(c) && Protocol(c, ops)
    ensures Exec(c, ops) == Ok(d)
    ensures !d.s.ptt.nvmFilled ==> DirtyBlocks(d.s, g) == |StoredBlocks(c, ops, g, d.s.ptt.pageBlocks)|
  {
    d := RunReaches(c, ops);
    UseGood(d);
    if !d.s.ptt.nvmFilled {
      var k := d.s.ptt.pageBlocks;
      var w, b := WrittenBlocks(d.s.att.entries, |d.s.att.entries|, g, k), StoredBlocks(c, ops, g, k);
      forall x: nat ensures x in w <==> x in b {
        var e := TenureReaches(c, ops, x);
        ReachedOnce(c, ops, d, e);
        WrittenMark(d.s, g, x);
        PageRange(x, k, g);
      }
      assert w == b;
    }
    ExecPlainly(c, ops, d);
  }
}
