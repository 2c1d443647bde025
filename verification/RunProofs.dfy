/** Runs of the controller, step by step. The equations `Exec(c, ops) == Ok(d)` and the facts of `Good`
    are kept behind guards here; the module Theorems states the results without them. */
module RunProofs {
  import opened Outcomes
  import opened VersionBuffers
  import opened TranslationTables
  import opened PageTables
  import opened Controllers
  import opened ControllerInvariants
  import opened Translation
  import opened Retention
  import opened Stores
  import opened Checkpoints
  import opened Migration
  import opened Runs

  datatype Config = Config(s: State, h: History)

  /** The run of `ops` from `c`; it aborts where the source would fail an assertion. */
  ghost function Exec(c: Config, ops: seq<Op>): Outcome<Config>
    decreases |ops|
  {
    if ops == [] then Ok(c)
    else
      var d :- Exec(c, ops[..|ops| - 1]);
      var op := ops[|ops| - 1];
      var t :- Step(d.s, op);
      Ok(Config(t, Advance(d.h, d.s, op, t)))
  }

  /** Each call is one the driver would make in the state it is made in. */
  ghost predicate Protocol(c: Config, ops: seq<Op>)
    decreases |ops|
  {
    ops == [] ||
    (&& Protocol(c, ops[..|ops| - 1])
     && (Exec(c, ops[..|ops| - 1]).Ok? ==> Allowed(Exec(c, ops[..|ops| - 1]).value.s, ops[|ops| - 1])))
  }

  /** A fresh controller with any memory contents. */
  ghost predicate Starts(c: Config) {
    Initial(c.s) && c.h == Birth(c.s)
  }

  ghost predicate ExecYields(c: Config, ops: seq<Op>, d: Config) {
    forall u {:trigger Unlocked(u)} :: Unlocked(u) ==> Exec(c, ops) == Ok(d)
  }

  lemma {:induction false} ProtocolFront(c: Config, ops: seq<Op>, d: Config)
    requires ops != [] && Protocol(c, ops) && ExecYields(c, ops[..|ops| - 1], d)
    ensures Protocol(c, ops[..|ops| - 1]) && Allowed(d.s, ops[|ops| - 1])
  {
    assert Unlocked(0);
  }

  lemma ExecUnfold(c: Config, ops: seq<Op>, d: Config, t: State)
    requires ops != [] && ExecYields(c, ops[..|ops| - 1], d) && StepYields(d.s, ops[|ops| - 1], t)
    ensures ExecYields(c, ops, Config(t, Advance(d.h, d.s, ops[|ops| - 1], t)))
  {
    assert Unlocked(0);
  }

  /** The flat memory after `ops`, from the stores alone. */
  ghost function FlatAfter(flat: seq<Block>, ops: seq<Op>, size: Positive): seq<Block>
    decreases |ops|
  {
    if ops == [] then flat
    else
      var before := FlatAfter(flat, ops[..|ops| - 1], size);
      match ops[|ops| - 1]
      case Store(addr, data) => FlatStore(before, addr, data, size)
      case _ => before
  }

  /** State and history agree, as far as `Good` says. */
  ghost predicate Agrees(d: Config) {
    forall u {:trigger Unlocked(u)} :: Unlocked(u) ==> Good(d.s, d.h)
  }

  lemma UseGood(d: Config)
    requires Agrees(d)
    ensures Good(d.s, d.h)
  {
    assert Unlocked(0);
  }

  /** `d` is a state of a run from `c`: it exists, agrees with its history, and its flat memory is
      that of the stores alone. */
  ghost predicate Reaches(c: Config, ops: seq<Op>, d: Config) {
    && ExecYields(c, ops, d) && Agrees(d)
    && d.s.phyBlocks == c.s.phyBlocks && d.s.blockSize == c.s.blockSize
    && |d.s.att.entries| == |c.s.att.entries| && d.s.ptt.length == c.s.ptt.length
    && d.h.flat == FlatAfter(c.h.flat, ops, c.s.blockSize)
  }

  /** Safety and refinement: no run fails an assertion, and its state always agrees with the flat
      memory, the retained images and the counters of its history. */
  lemma {:induction false} RunReaches(c: Config, ops: seq<Op>) returns (d: Config)
    requires Starts(c) && Protocol(c, ops)
    ensures Reaches(c, ops, d)
    decreases |ops|
  {
    if ops == [] {
      d := c;
      InitialGood(c.s);
    } else {
      var m := Front(c, ops);
      UseGood(m);
      var t := StepOk(m.s, m.h, ops[|ops| - 1]);
      ExecUnfold(c, ops, m, t);
      d := Config(t, Advance(m.h, m.s, ops[|ops| - 1], t));
    }
  }

  lemma {:induction false} Front(c: Config, ops: seq<Op>) returns (m: Config)
    requires ops != [] && Starts(c) && Protocol(c, ops)
    ensures Reaches(c, ops[..|ops| - 1], m) && Allowed(m.s, ops[|ops| - 1])
    decreases |ops|, 0
  {
    assert Protocol(c, ops[..|ops| - 1]);
    m := RunReaches(c, ops[..|ops| - 1]);
    ProtocolFront(c, ops, m);
  }

  lemma SameStep(s: State, op: Op, t: State, u: State)
    requires StepYields(s, op, t) && StepYields(s, op, u)
    ensures t == u
  {
    assert Unlocked(0);
  }

  /** A migration leaves no loans and does not change the phase. */
  lemma MigratedLoans(m: Config, op: Op, d: Config)
    requires Agrees(m) && op.Migrate? && Allowed(m.s, op) && StepYields(m.s, op, d.s)
    ensures |d.s.att.queues| == 4 && Queue(d.s.att, Loan) == [] && !d.s.ckpt && d.s.ptt.pageBlocks == m.s.ptt.pageBlocks
  {
    UseGood(m);
    var t := MigrateOk(m.s, m.h, op);
    assert Unlocked(0);
  }

  // ----- transparency -----

  function FlatByte(flat: seq<Block>, addr: nat, size: Positive): Byte
    requires BlockOf(addr, size) < |flat| && OffsetOf(addr, size) < |flat[BlockOf(addr, size)]|
  {
    flat[BlockOf(addr, size)][OffsetOf(addr, size)]
  }

  lemma Digits(addr: nat, size: Positive)
    ensures addr == BlockOf(addr, size) * size + OffsetOf(addr, size) && OffsetOf(addr, size) < size
  {
  }

  lemma SameDigits(q: nat, r: nat, size: Positive)
    requires r < size
    ensures BlockOf(q * size + r, size) == q && OffsetOf(q * size + r, size) == r
  {
    var a := q * size + r;
    Digits(a, size);
    MulLarge(BlockOf(a, size) - q, size);
    assert (BlockOf(a, size) - q) * size == BlockOf(a, size) * size - q * size;
  }

  /** The law of the flat memory: a byte reads as last written, all others as before. */
  lemma FlatLaw(flat: seq<Block>, addr: nat, data: seq<Byte>, size: Positive, x: nat)
    requires CheckValid(addr, |data|, size) && BlockOf(addr, size) < |flat| && BlockOf(x, size) < |flat|
    requires forall g :: 0 <= g < |flat| ==> |flat[g]| == size
    ensures var after := FlatStore(flat, addr, data, size);
      && |after| == |flat| && |after[BlockOf(x, size)]| == size
      && FlatByte(after, x, size) == if addr <= x < addr + |data| then data[x - addr] else FlatByte(flat, x, size)
  {
    InBlock(addr, |data|, size);
    Digits(addr, size);
    Digits(x, size);
    var b, c := BlockOf(addr, size), BlockOf(x, size);
    MulLarge(c - b, size);
    assert (c - b) * size == c * size - b * size;
  }

  // ----- images -----

  /** Block `g`'s copy in `image` is intact at machine block `a`: its home, or an NVM slot that is
      not free; and no other block is kept there. */
  ghost predicate Intact(s: State, image: seq<Block>, g: nat, a: nat) {
    && g < |image| && a < |s.mem| && s.mem[a] == image[g]
    && (a == g || At(s.nvm, a, s.nvm.inUse + s.nvm.backup0 + s.nvm.backup1))
    && !FreeCell(s, a)
    && forall x: nat :: x < s.phyBlocks && x != g ==> Place(s, x).base != a
  }

  /** Every covered block has an intact copy, in a place of its own. */
  ghost predicate ImageKept(s: State, image: seq<Block>, covered: set<nat>, loc: map<nat, nat>) {
    && (forall g :: g in covered ==> g in loc && Intact(s, image, g, loc[g]))
    && (forall g, h :: g in covered && h in covered && g in loc && h in loc && g != h ==> loc[g] != loc[h])
  }

  lemma IntactCopy(s: State, image: seq<Block>, dom: set<nat>, loc: map<nat, nat>, age: Age, g: nat)
    requires Core(s) && HeldAt(s, image, dom, loc, age, g) && g in dom
    ensures Intact(s, image, g, loc[g])
  {
    var a := loc[g];
    forall x: nat | x < s.phyBlocks && x != g ensures Place(s, x).base != a {
      SafeClear(s, g, a, age, x);
    }
    if BackupCell(s, a) {
      BackupApart(s, a);
    } else if a == g {
      OutsideCell(s.nvm, a);
      OutsideCell(s.dram, a);
    } else {
      PlaceInside(s, g);
      CleanSlot(s, g);
    }
  }

  lemma CleanSlot(s: State, g: nat)
    requires Core(s) && Place(s, g).state == Clean
    ensures At(s.nvm, Place(s, g).base, s.nvm.inUse)
  {
    LiveTag(s, g);
    assert EntryOk(s, s.att.index[g]);
  }

  lemma KeptImage(s: State, image: seq<Block>, dom: set<nat>, age: Age) returns (loc: map<nat, nat>)
    requires Core(s) && Retained(s, image, dom, age)
    ensures ImageKept(s, image, dom, loc)
  {
    loc :| Held(s, image, dom, loc, age);
    forall g | g in dom ensures g in loc && Intact(s, image, g, loc[g]) {
      assert HeldAt(s, image, dom, loc, age, g);
      IntactCopy(s, image, dom, loc, age, g);
    }
    forall g, h | g in dom && h in dom && g in loc && h in loc && g != h ensures loc[g] != loc[h] {
      assert DistinctAt(dom, loc, g, h);
    }
  }

  // ----- ownership -----

  /** The machine address of a byte. */
  ghost function Translate(s: State, addr: nat): nat {
    Place(s, BlockOf(addr, s.blockSize)).base * s.blockSize + OffsetOf(addr, s.blockSize)
  }

  /** Different bytes of blocks kept apart have different machine addresses. */
  lemma ApartBytes(a: nat, b: nat, p: nat, q: nat, size: Positive)
    requires a != b && (p == q <==> BlockOf(a, size) == BlockOf(b, size))
    ensures p * size + OffsetOf(a, size) != q * size + OffsetOf(b, size)
  {
    Digits(a, size);
    Digits(b, size);
    SameDigits(p, OffsetOf(a, size), size);
    SameDigits(q, OffsetOf(b, size), size);
  }

  lemma ReachedNoAlias(d: Config, x: nat, y: nat)
    requires Agrees(d) && x < d.s.phyBlocks && y < d.s.phyBlocks && x != y
    ensures Place(d.s, x).base != Place(d.s, y).base
  {
    UseGood(d);
    NoAlias(d.s, x, y);
  }

  lemma Holder(s: State, i: nat, x: nat)
    requires EntryOk(s, i)
    ensures HoldsNvm(s, i, x) ==> x in s.nvm.inUse
    ensures HoldsDram(s, i, x) ==> x in s.dram.inUse
  {
  }

  lemma SlotOwners(s: State, x: nat)
    requires Inv(s)
    ensures x in s.nvm.inUse <==> exists i :: HoldsNvm(s, i, x)
    ensures x in s.dram.inUse <==> exists i :: HoldsDram(s, i, x)
  {
    assert SlotOwned(s, x);
    forall i: nat ensures HoldsNvm(s, i, x) ==> x in s.nvm.inUse ensures HoldsDram(s, i, x) ==> x in s.dram.inUse {
      assert EntryOk(s, i);
      Holder(s, i, x);
    }
  }

  lemma MappedBlock(s: State, g: nat)
    requires Inv(s) && Place(s, g).state != Free
    ensures Place(s, g).state == Loan <==> IsDram(s, g)
    ensures Place(s, g).state == Hidden ==> Place(s, g).base == g
    ensures s.ckpt ==> Place(s, g).state != Dirty && Place(s, g).state != Hidden
  {
    LiveTag(s, g);
    assert EntryOk(s, s.att.index[g]) && SideOk(s, s.att.index[g]);
  }

  // ----- backups -----

  ghost predicate NoFinish(ops: seq<Op>, n: nat) {
    forall i :: n <= i < |ops| ==> ops[i] != Finish
  }

  lemma ReachedOnce(c: Config, ops: seq<Op>, d: Config, e: Config)
    requires Reaches(c, ops, d) && Reaches(c, ops, e)
    ensures d == e
  {
    assert ExecYields(c, ops, d) && ExecYields(c, ops, e);
    OnceYields(c, ops, d, e);
  }

  lemma OnceYields(c: Config, ops: seq<Op>, d: Config, e: Config)
    requires ExecYields(c, ops, d) && ExecYields(c, ops, e)
    ensures d == e
  {
    assert Unlocked(0);
  }

  /** The last step of a run. */
  lemma LastStep(c: Config, ops: seq<Op>) returns (m: Config, d: Config)
    requires ops != [] && Starts(c) && Protocol(c, ops)
    ensures Reaches(c, ops[..|ops| - 1], m) && Reaches(c, ops, d)
    ensures BackupStepped(m.s, ops[|ops| - 1], d.s) && Counted(m.s, ops[|ops| - 1], d.s)
    ensures d.h == Advance(m.h, m.s, ops[|ops| - 1], d.s) && Allowed(m.s, ops[|ops| - 1])
    ensures if ops[|ops| - 1].Migrate? then ReturnsFew(m.s, d.s) else d.s.toNvm == m.s.toNvm
  {
    m := Front(c, ops);
    UseGood(m);
    var t := StepOk(m.s, m.h, ops[|ops| - 1]);
    ExecUnfold(c, ops, m, t);
    d := Config(t, Advance(m.h, m.s, ops[|ops| - 1], t));
  }

  /** Until a finish, nothing leaves the backup sets. */
  lemma {:induction false} BackupsPersist(c: Config, ops: seq<Op>, n: nat) returns (m: Config, d: Config)
    requires Starts(c) && Protocol(c, ops) && n <= |ops| && NoFinish(ops, n)
    ensures Reaches(c, ops[..n], m) && Reaches(c, ops, d)
    ensures m.s.nvm.backup0 <= d.s.nvm.backup0 && m.s.nvm.backup1 <= d.s.nvm.backup1
    decreases |ops|
  {
    if n == |ops| {
      d := RunReaches(c, ops);
      m := d;
      assert ops[..n] == ops;
    } else {
      var front := ops[..|ops| - 1];
      assert Protocol(c, front);
      var p, q := LastStep(c, ops);
      var r;
      m, r := BackupsPersist(c, front, n);
      assert front[..n] == ops[..n];
      ReachedOnce(c, front, p, r);
      d := q;
    }
  }

  lemma {:induction false} ProtocolPrefix(c: Config, ops: seq<Op>, n: nat)
    requires Protocol(c, ops) && n <= |ops|
    ensures Protocol(c, ops[..n])
    decreases |ops|
  {
    if n < |ops| {
      ProtocolPrefix(c, ops[..|ops| - 1], n);
      assert ops[..|ops| - 1][..n] == ops[..n];
    } else {
      assert ops[..n] == ops;
    }
  }

  /** A run up to its next finish keeps both generations; the finish then frees the old one and ages
      the young one. */
  lemma UntilFinish(c: Config, ops: seq<Op>, k: nat) returns (e: Config, a: Config, d: Config)
    requires Starts(c) && Protocol(c, ops) && k < |ops| && ops[|ops| - 1] == Finish
    requires NoFinish(ops[..|ops| - 1], k)
    ensures Reaches(c, ops[..k], e) && Reaches(c, ops[..|ops| - 1], a) && Reaches(c, ops, d)
    ensures e.s.nvm.backup1 <= a.s.nvm.backup1 && e.s.nvm.backup1 <= d.s.nvm.backup0
    ensures e.s.nvm.backup0 <= a.s.nvm.backup0 && e.s.nvm.backup0 <= d.s.nvm.free
  {
    var front := ops[..|ops| - 1];
    var b;
    a, d := LastStep(c, ops);
    e, b := BackupsPersist(c, front, k);
    ReachedOnce(c, front, a, b);
    assert front[..k] == ops[..k];
  }

  lemma {:induction false} FirstFinish(c: Config, ops: seq<Op>, k: nat, n: nat) returns (e: Config, a: Config, f: Config)
    requires Starts(c) && Protocol(c, ops) && k <= n < |ops| && ops[n] == Finish && NoFinish(ops[..n], k)
    ensures Reaches(c, ops[..k], e) && Reaches(c, ops[..n], a) && Reaches(c, ops[..n + 1], f)
    ensures e.s.nvm.backup1 <= a.s.nvm.backup1 && e.s.nvm.backup1 <= f.s.nvm.backup0
  {
    ProtocolPrefix(c, ops, n + 1);
    var first := ops[..n + 1];
    assert first[..k] == ops[..k] && first[..n] == ops[..n] && |first| - 1 == n;
    e, a, f := UntilFinish(c, first, k);
  }

  /** A slot backed up while checkpointing lives through that finish and is freed by the next one:
      `x` is in the young generation at position `k`, the next finish is at `n`, the one after it at
      the end. */
  lemma BackupReaches(c: Config, ops: seq<Op>, k: nat, n: nat, x: nat)
    returns (e: Config, a: Config, b: Config, d: Config)
    requires Starts(c) && Protocol(c, ops) && k <= n < |ops| - 1
    requires ops[n] == Finish && ops[|ops| - 1] == Finish
    requires NoFinish(ops[..n], k) && NoFinish(ops[..|ops| - 1], n + 1)
    ensures Reaches(c, ops[..k], e) && Reaches(c, ops[..n], a)
    ensures Reaches(c, ops[..|ops| - 1], b) && Reaches(c, ops, d)
    ensures x in e.s.nvm.backup1 ==> x in a.s.nvm.backup1 && x in b.s.nvm.backup0 && x in d.s.nvm.free
  {
    var f, g;
    e, a, f := FirstFinish(c, ops, k, n);
    g, b, d := UntilFinish(c, ops, n + 1);
    ReachedOnce(c, ops[..n + 1], f, g);
  }

  // ----- progress -----

  lemma BeginReached(c: Config, ops: seq<Op>, m: Config) returns (d: Config)
    requires ops != [] && ops[|ops| - 1] == Begin && Starts(c) && Protocol(c, ops)
    requires Reaches(c, ops[..|ops| - 1], m) && Allowed(m.s, Begin)
    ensures Reaches(c, ops, d) && TableOk(d.s.att) && d.s.ckpt && AllSettled(d.s.att.entries)
  {
    UseGood(m);
    var t := BeginStepOk(m.s, m.h);
    ExecUnfold(c, ops, m, t);
    d := Config(t, Advance(m.h, m.s, Begin, t));
  }

  // ----- migration -----

  function Migrations(ops: seq<Op>): nat {
    if ops == [] then 0
    else Migrations(ops[..|ops| - 1]) + if ops[|ops| - 1].Migrate? then 1 else 0
  }

  lemma {:induction false} LastReturns(c: Config, ops: seq<Op>) returns (m: Config, d: Config)
    requires Starts(c) && Protocol(c, ops) && c.s.ptt.length >= 16 && ops != []
    ensures Protocol(c, ops[..|ops| - 1]) && Reaches(c, ops[..|ops| - 1], m) && Reaches(c, ops, d)
    ensures d.s.toNvm <= m.s.toNvm + if ops[|ops| - 1].Migrate? then c.s.ptt.length / 16 else 0
  {
    m, d := LastStep(c, ops);
    SpareCapacity(m);
  }

  /** Each migration gives back at most the spare capacity. */
  lemma {:induction false} ReturnedPages(c: Config, ops: seq<Op>) returns (d: Config)
    requires Starts(c) && Protocol(c, ops) && c.s.ptt.length >= 16
    ensures Reaches(c, ops, d) && d.s.toNvm <= Migrations(ops) * (c.s.ptt.length / 16)
    decreases |ops|
  {
    if ops == [] {
      d := RunReaches(c, ops);
      OnceYields(c, ops, c, d);
    } else {
      var m;
      m, d := LastReturns(c, ops);
      var n := ReturnedPages(c, ops[..|ops| - 1]);
      ReachedOnce(c, ops[..|ops| - 1], m, n);
      MoreReturned(Migrations(ops[..|ops| - 1]), ops[|ops| - 1].Migrate?, c.s.ptt.length / 16, m.s.toNvm, d.s.toNvm);
    }
  }

  lemma MoreReturned(k: nat, more: bool, spare: nat, a: nat, b: nat)
    requires a <= k * spare && b <= a + if more then spare else 0
    ensures b <= (k + if more then 1 else 0) * spare
  {
    assert (k + 1) * spare == k * spare + spare;
  }

  lemma SpareCapacity(m: Config)
    requires Agrees(m)
    ensures m.s.ptt.capacity == m.s.ptt.length + m.s.ptt.length / 16
  {
    UseGood(m);
  }

  // ----- the driver's books -----

  /** The driver migrates, then begins a checkpoint at once: no store in between, no begin without. */
  ghost predicate DriverStep(s: State, op: Op) {
    (op.Store? ==> !s.ptt.nvmFilled) && (op == Begin ==> s.ptt.nvmFilled)
  }

  ghost predicate DrivenAt(c: Config, ops: seq<Op>, k: nat) {
    k < |ops| && Exec(c, ops[..k]).Ok? ==> DriverStep(Exec(c, ops[..k]).value.s, ops[k])
  }

  ghost predicate Driven(c: Config, ops: seq<Op>) {
    forall k :: DrivenAt(c, ops, k)
  }

  lemma {:induction false} DrivenStep(c: Config, ops: seq<Op>, k: nat, m: Config)
    requires Driven(c, ops) && k < |ops| && ExecYields(c, ops[..k], m)
    ensures DriverStep(m.s, ops[k])
  {
    assert Unlocked(0);
    assert DrivenAt(c, ops, k);
  }

  lemma {:induction false} DrivenFront(c: Config, ops: seq<Op>)
    requires Driven(c, ops) && ops != []
    ensures Driven(c, ops[..|ops| - 1])
  {
    var front := ops[..|ops| - 1];
    forall k: nat ensures DrivenAt(c, front, k) {
      assert DrivenAt(c, ops, k);
      assert k <= |front| ==> front[..k] == ops[..k];
    }
  }

  /** Totals of the migration controller against the driver's own write counters. */
  ghost predicate Balanced(s: State, h: History) {
    && s.ptt.totalNvm + (if s.ptt.nvmFilled then 0 else h.epochNvm) == s.stats.nvmWrites
    && s.ptt.totalDram + (if s.ptt.nvmFilled then 0 else h.epochDram) == s.stats.dramWrites
    && s.stats.nvmWrites + s.stats.dramWrites == s.stats.attHits + s.stats.attMisses + s.stats.dramHits
  }

  lemma StepBalance(m: Config, op: Op, d: Config)
    requires Agrees(m) && Agrees(d) && Balanced(m.s, m.h) && Counted(m.s, op, d.s) && DriverStep(m.s, op)
    requires d.h == Advance(m.h, m.s, op, d.s) && (op.Migrate? ==> !m.s.ptt.nvmFilled)
    ensures Balanced(d.s, d.h)
  {
    UseGood(m);
    UseGood(d);
  }

  /** In every driven run the books balance; in particular, between a migration and the begin that
      follows it the controller's totals are the driver's counts. */
  lemma {:induction false} BooksReach(c: Config, ops: seq<Op>) returns (d: Config)
    requires Starts(c) && Protocol(c, ops) && Driven(c, ops)
    ensures Reaches(c, ops, d) && Balanced(d.s, d.h)
    decreases |ops|
  {
    if ops == [] {
      d := RunReaches(c, ops);
      OnceYields(c, ops, c, d);
    } else {
      var front := ops[..|ops| - 1];
      var m;
      m, d := LastStep(c, ops);
      assert Protocol(c, front);
      DrivenFront(c, ops);
      var n := BooksReach(c, front);
      ReachedOnce(c, front, m, n);
      DrivenStep(c, ops, |ops| - 1, m);
      StepBalance(m, ops[|ops| - 1], d);
    }
  }
}
