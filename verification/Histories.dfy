/** What the flat memory and the images of a history are, in terms of the run alone. */
module Histories {
  import opened Outcomes
  import opened PageTables
  import opened Controllers
  import opened Checkpoints
  import opened Runs
  import opened RunProofs

  // ----- the last write to a byte -----

  /** `op` writes byte `x`. */
  predicate Writes(op: Op, x: nat) {
    op.Store? && op.addr <= x < op.addr + |op.data|
  }

  /** The byte that the last store of `ops` to `x` wrote, or `b` if there is none. */
  function LastWritten(b: Byte, ops: seq<Op>, x: nat): Byte
    decreases |ops|
  {
    if ops == [] then b
    else
      var op := ops[|ops| - 1];
      if Writes(op, x) then op.data[x - op.addr] else LastWritten(b, ops[..|ops| - 1], x)
  }

  ghost predicate Sized(flat: seq<Block>, n: nat, size: Positive) {
    |flat| == n && forall g :: 0 <= g < n ==> |flat[g]| == size
  }

  lemma {:induction false} FlatSized(flat: seq<Block>, ops: seq<Op>, size: Positive)
    requires Sized(flat, |flat|, size)
    ensures Sized(FlatAfter(flat, ops, size), |flat|, size)
    decreases |ops|
  {
    if ops != [] {
      FlatSized(flat, ops[..|ops| - 1], size);
    }
  }

  lemma BirthSized(c: Config)
    requires Starts(c)
    ensures Sized(c.h.flat, c.s.phyBlocks, c.s.blockSize)
  {
  }

  /** Every byte of the flat memory is the one last written. */
  lemma {:induction false} FlatIsLast(c: Config, ops: seq<Op>, x: nat)
    requires Starts(c) && Protocol(c, ops) && BlockOf(x, c.s.blockSize) < c.s.phyBlocks
    ensures var flat, size := FlatAfter(c.h.flat, ops, c.s.blockSize), c.s.blockSize;
      && Sized(c.h.flat, c.s.phyBlocks, size) && Sized(flat, c.s.phyBlocks, size)
      && FlatByte(flat, x, size) == LastWritten(FlatByte(c.h.flat, x, size), ops, x)
    decreases |ops|
  {
    var size := c.s.blockSize;
    BirthSized(c);
    FlatSized(c.h.flat, ops, size);
    if ops != [] {
      var front, op := ops[..|ops| - 1], ops[|ops| - 1];
      assert Protocol(c, front);
      FlatIsLast(c, front, x);
      if op.Store? {
        var m := RunProofs.Front(c, ops);
        FlatLaw(FlatAfter(c.h.flat, front, size), op.addr, op.data, size, x);
      }
    }
  }

  // ----- the images -----

  /** Only a migration changes which pages are in DRAM. */
  lemma {:induction false} StepPages(s: State, h: History, op: Op, t: State)
    requires Good(s, h) && Allowed(s, op) && StepYields(s, op, t)
    ensures !op.Migrate? ==> forall g: nat :: IsDram(t, g) <==> IsDram(s, g)
    ensures t.ckpt == if op == Begin then true else if op == Finish then false else s.ckpt
  {
    match op
    case Store(addr, data) =>
      var u := StoreOk(s, h, addr, data);
      SameStep(s, op, t, u);
    case Load(addr) =>
      var u := LoadOk(s, h, addr);
      SameStep(s, op, t, u);
    case Migrate(_, _, _, _) =>
      var u := MigrateOk(s, h, op);
      SameStep(s, op, t, u);
    case Begin =>
      var u := BeginStepOk(s, h);
      SameStep(s, op, t, u);
    case Finish =>
      var u := FinishStepOk(s, h);
      SameStep(s, op, t, u);
  }

  ghost predicate HasBegin(ops: seq<Op>) {
    Begin in ops
  }

  /** The position of the last begin; zero if there is none. */
  function LastBegin(ops: seq<Op>): (k: nat)
    ensures k <= |ops| && (k == |ops| ==> ops == [])
    ensures HasBegin(ops) ==> k < |ops| && ops[k] == Begin && forall i :: k < i < |ops| ==> ops[i] != Begin
    decreases |ops|
  {
    if ops == [] then 0
    else if ops[|ops| - 1] == Begin then |ops| - 1
    else
      var front := ops[..|ops| - 1];
      assert ops == front + [ops[|ops| - 1]];
      LastBegin(front)
  }

  /** In the state after `ops`, block `g` is not in DRAM. */
  ghost predicate Out(c: Config, ops: seq<Op>, g: nat) {
    Exec(c, ops).Ok? && !IsDram(Exec(c, ops).value.s, g)
  }

  /** Block `g` was never in DRAM after the call at `n`. */
  ghost predicate OutSince(c: Config, ops: seq<Op>, n: nat, g: nat) {
    forall j :: n < j <= |ops| ==> Out(c, ops[..j], g)
  }

  /** `image` is the memory at the last begin of `ops`, and covers the blocks not in DRAM since. */
  ghost predicate ImageOf(c: Config, ops: seq<Op>, image: seq<Block>, covered: set<nat>) {
    && image == FlatAfter(c.h.flat, ops[..LastBegin(ops)], c.s.blockSize)
    && forall g: nat :: g in covered <==> HasBegin(ops) && g < c.s.phyBlocks && OutSince(c, ops, LastBegin(ops), g)
  }

  lemma FrontPrefix(ops: seq<Op>, j: nat)
    requires j < |ops|
    ensures ops[..|ops| - 1][..j] == ops[..j] && ops[..|ops|] == ops
  {
  }

  lemma {:induction false} OutNext(c: Config, ops: seq<Op>, n: nat, g: nat)
    requires n < |ops|
    ensures OutSince(c, ops, n, g) <==> OutSince(c, ops[..|ops| - 1], n, g) && Out(c, ops, g)
  {
    var front := ops[..|ops| - 1];
    FrontPrefix(ops, 0);
    if OutSince(c, ops, n, g) {
      assert Out(c, ops[..|ops|], g);
      forall j | n < j <= |front| ensures Out(c, front[..j], g) {
        FrontPrefix(ops, j);
        assert Out(c, ops[..j], g);
      }
    }
    if OutSince(c, front, n, g) && Out(c, ops, g) {
      forall j | n < j <= |ops| ensures Out(c, ops[..j], g) {
        if j < |ops| {
          FrontPrefix(ops, j);
          assert Out(c, front[..j], g);
        }
      }
    }
  }

  lemma OutIs(c: Config, ops: seq<Op>, d: Config, g: nat)
    requires ExecYields(c, ops, d)
    ensures Out(c, ops, g) <==> !IsDram(d.s, g)
  {
    assert Unlocked(0);
  }

  lemma {:induction false} HasBeginFront(ops: seq<Op>)
    requires ops != [] && ops[|ops| - 1] != Begin
    ensures HasBegin(ops) <==> HasBegin(ops[..|ops| - 1])
    ensures LastBegin(ops) == LastBegin(ops[..|ops| - 1]) && ops[..|ops| - 1][..LastBegin(ops)] == ops[..LastBegin(ops)]
  {
    var front := ops[..|ops| - 1];
    assert ops == front + [ops[|ops| - 1]];
    assert front[..LastBegin(front)] == ops[..LastBegin(front)];
  }

  lemma {:induction false} BeginImage(c: Config, ops: seq<Op>, d: Config)
    requires ops != [] && ops[|ops| - 1] == Begin && ExecYields(c, ops, d) && d.s.phyBlocks == c.s.phyBlocks
    ensures ImageOf(c, ops, FlatAfter(c.h.flat, ops[..|ops| - 1], c.s.blockSize), NvmBlocks(d.s))
  {
    var n := |ops| - 1;
    forall g: nat ensures g in NvmBlocks(d.s) <==> HasBegin(ops) && g < c.s.phyBlocks && OutSince(c, ops, n, g) {
      OutNext(c, ops, n, g);
      OutIs(c, ops, d, g);
    }
  }

  /** Between begins, a block is covered as long as its page stays out of DRAM. */
  lemma {:induction false} LaterImage(c: Config, ops: seq<Op>, d: Config, image: seq<Block>, was: set<nat>, now: set<nat>)
    requires ops != [] && ops[|ops| - 1] != Begin && ExecYields(c, ops, d)
    requires ImageOf(c, ops[..|ops| - 1], image, was) && forall g: nat :: g in now <==> g in was && !IsDram(d.s, g)
    ensures ImageOf(c, ops, image, now)
  {
    HasBeginFront(ops);
    var n := LastBegin(ops);
    forall g: nat ensures g in now <==> HasBegin(ops) && g < c.s.phyBlocks && OutSince(c, ops, n, g) {
      OutNext(c, ops, n, g);
      OutIs(c, ops, d, g);
    }
  }

  /** Without a migration, what was covered still is out. */
  lemma {:induction false} CoveredOut(c: Config, ops: seq<Op>, m: Config, image: seq<Block>, covered: set<nat>, g: nat)
    requires ExecYields(c, ops, m) && ImageOf(c, ops, image, covered) && g in covered
    ensures !IsDram(m.s, g)
  {
    assert ops[..|ops|] == ops;
    assert Out(c, ops[..|ops|], g);
    OutIs(c, ops, m, g);
  }

  ghost predicate ImagesOf(c: Config, ops: seq<Op>, d: Config) {
    && ImageOf(c, ops, d.h.image, d.h.covered)
    && (d.s.ckpt ==> HasBegin(ops) && ImageOf(c, ops[..LastBegin(ops)], d.h.prevImage, d.h.prevCovered))
  }

  lemma {:induction false} ImagesStep(c: Config, ops: seq<Op>, m: Config, d: Config)
    requires ops != [] && Reaches(c, ops[..|ops| - 1], m) && Reaches(c, ops, d) && ImagesOf(c, ops[..|ops| - 1], m)
    requires Allowed(m.s, ops[|ops| - 1]) && StepYields(m.s, ops[|ops| - 1], d.s)
    requires d.h == Advance(m.h, m.s, ops[|ops| - 1], d.s)
    ensures ImagesOf(c, ops, d)
  {
    var front, op := ops[..|ops| - 1], ops[|ops| - 1];
    UseGood(m);
    StepPages(m.s, m.h, op, d.s);
    if op == Begin {
      BeginImage(c, ops, d);
      assert LastBegin(ops) == |front| && ops[..|front|] == front;
    } else {
      forall g: nat ensures g in d.h.covered <==> g in m.h.covered && !IsDram(d.s, g) {
        if g in m.h.covered {
          CoveredOut(c, front, m, m.h.image, m.h.covered, g);
        }
      }
      LaterImage(c, ops, d, m.h.image, m.h.covered, d.h.covered);
      HasBeginFront(ops);
    }
  }

  /** The images of a history are the memory at the last two begins. */
  lemma {:induction false} ImageHistory(c: Config, ops: seq<Op>) returns (d: Config)
    requires Starts(c) && Protocol(c, ops)
    ensures Reaches(c, ops, d) && ImagesOf(c, ops, d)
    decreases |ops|
  {
    d := RunReaches(c, ops);
    if ops == [] {
      OnceYields(c, ops, c, d);
    } else {
      var m := RunProofs.Front(c, ops);
      assert Protocol(c, ops[..|ops| - 1]);
      var n := ImageHistory(c, ops[..|ops| - 1]);
      ReachedOnce(c, ops[..|ops| - 1], m, n);
      UseGood(m);
      var t := StepOk(m.s, m.h, ops[|ops| - 1]);
      ExecUnfold(c, ops, m, t);
      OnceYields(c, ops, d, Config(t, Advance(m.h, m.s, ops[|ops| - 1], t)));
      ImagesStep(c, ops, m, d);
    }
  }
}
