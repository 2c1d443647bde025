/** Eviction over whole runs: the victim is the block that the calls of the run used longest ago. */
module Usage {
  import opened Outcomes
  import opened Lists
  import opened TranslationTables
  import opened Controllers
  import opened ControllerInvariants
  import opened Runs
  import opened RunProofs
  import opened Theorems
  import opened Eviction
  import opened Ordering
  import opened Recency

  /** A call uses block `x`: it loads or stores it, or it is the begin that flushes its entry. */
  ghost predicate Touches(s: State, op: Op, x: nat) {
    match op
    case Store(addr, _) => BlockOf(addr, s.blockSize) == x
    case Load(addr) => BlockOf(addr, s.blockSize) == x
    case Begin => Flushes(s.att, x)
    case _ => false
  }

  /** The call at position `k` of the run uses block `x`. */
  ghost predicate TouchedAt(c: Config, ops: seq<Op>, k: nat, x: nat) {
    k < |ops| && Exec(c, ops[..k]).Ok? && Touches(Exec(c, ops[..k]).value.s, ops[k], x)
  }

  /** The last call that used `x`, or -1. */
  ghost function LastTouch(c: Config, ops: seq<Op>, x: nat): int
    decreases |ops|
  {
    if ops == [] then -1
    else if TouchedAt(c, ops, |ops| - 1, x) then |ops| - 1
    else LastTouch(c, ops[..|ops| - 1], x)
  }

  /** `x` was used before `y`: its last use is earlier, or both are one begin and it was so before that. */
  ghost predicate UsedBefore(c: Config, ops: seq<Op>, x: nat, y: nat)
    decreases |ops|
  {
    var k, l := LastTouch(c, ops, x), LastTouch(c, ops, y);
    k < l || (0 <= k == l < |ops| && UsedBefore(c, ops[..k], x, y))
  }

  lemma {:induction false} LastTouchIn(c: Config, ops: seq<Op>, x: nat)
    ensures -1 <= LastTouch(c, ops, x) < |ops|
    decreases |ops|
  {
    if ops != [] {
      LastTouchIn(c, ops[..|ops| - 1], x);
    }
  }

  lemma TouchedFront(c: Config, ops: seq<Op>, k: nat, x: nat)
    requires k < |ops| - 1
    ensures TouchedAt(c, ops, k, x) <==> TouchedAt(c, ops[..|ops| - 1], k, x)
  {
    assert ops[..|ops| - 1][..k] == ops[..k];
  }

  /** The position of the last use did use `x`. */
  lemma {:induction false} LastTouchUsed(c: Config, ops: seq<Op>, x: nat)
    requires LastTouch(c, ops, x) >= 0
    ensures TouchedAt(c, ops, LastTouch(c, ops, x), x)
    decreases |ops|
  {
    if !TouchedAt(c, ops, |ops| - 1, x) {
      var front := ops[..|ops| - 1];
      LastTouchIn(c, front, x);
      LastTouchUsed(c, front, x);
      TouchedFront(c, ops, LastTouch(c, front, x), x);
    }
  }

  /** No later call used `x`. */
  lemma {:induction false} LastTouchLast(c: Config, ops: seq<Op>, k: nat, x: nat)
    requires TouchedAt(c, ops, k, x)
    ensures k <= LastTouch(c, ops, x)
    decreases |ops|
  {
    if !TouchedAt(c, ops, |ops| - 1, x) {
      TouchedFront(c, ops, k, x);
      LastTouchLast(c, ops[..|ops| - 1], k, x);
    }
  }

  /** `LastTouch` is the greatest position that used `x`, or -1 if there is none. */
  lemma {:induction false} LastTouchIs(c: Config, ops: seq<Op>, x: nat)
    ensures var k := LastTouch(c, ops, x); k == -1 || (k >= 0 && TouchedAt(c, ops, k, x))
    ensures forall k: nat :: TouchedAt(c, ops, k, x) ==> k <= LastTouch(c, ops, x)
  {
    LastTouchIn(c, ops, x);
    if LastTouch(c, ops, x) >= 0 {
      LastTouchUsed(c, ops, x);
    }
    forall k: nat | TouchedAt(c, ops, k, x) ensures k <= LastTouch(c, ops, x) {
      LastTouchLast(c, ops, k, x);
    }
  }

  /** How one more call changes who was used before whom. */
  lemma {:induction false} UsedNext(c: Config, ops: seq<Op>, x: nat, y: nat)
    requires ops != []
    requires var n, front := |ops| - 1, ops[..|ops| - 1];
      || (TouchedAt(c, ops, n, y) && !TouchedAt(c, ops, n, x))
      || ((TouchedAt(c, ops, n, x) <==> TouchedAt(c, ops, n, y)) && UsedBefore(c, front, x, y))
    ensures UsedBefore(c, ops, x, y)
  {
    var n, front := |ops| - 1, ops[..|ops| - 1];
    LastTouchIn(c, front, x);
    LastTouchIn(c, front, y);
    if !TouchedAt(c, ops, n, x) && !TouchedAt(c, ops, n, y) {
      var k := LastTouch(c, front, x);
      if 0 <= k == LastTouch(c, front, y) {
        assert front[..k] == ops[..k];
      }
    }
  }

  // ----- the order of the queues -----

  lemma {:induction false} MigrateOrder(s: State, op: Op, t: State)
    requires TableOk(s.att) && op.Migrate? && MigratePages(s, op.dr, op.wr, op.nvmOrder, op.dramOrder) == Ok(t)
    ensures KeepsOrder(s.att, t.att)
  {
    RevokeKeeps(s, Queue(s.att, Loan));
    var s2 := MigrateInput(s, op.nvmOrder, op.dramOrder).value;
    LoopsKeep(s2, PageTables.CountFrom(op.dr, s.ptt.pageBlocks), PageTables.CountUpTo(op.wr, s.ptt.pageBlocks));
    KeepsTrans(s.att, s2.att, t.att);
  }

  lemma {:induction false} BeginOrder(s: State, t: State, x: nat, y: nat)
    requires TableOk(s.att) && BeginCheckpointing(s) == Ok(t) && Before(t.att, x, y)
    ensures (Flushes(s.att, y) && !Flushes(s.att, x)) || ((Flushes(s.att, x) <==> Flushes(s.att, y)) && Before(s.att, x, y))
  {
    var m := CleanEntries(s, Queue(s.att, Dirty)).value;
    FlushOrder(s);
    CountsKeep(m.att, t.att.entries);
    FlushedBefore(s.att, m.att, x, y);
  }

  /** After a call, one entry stands before another in its queue only if the call used the second and not
      the first, or it used both or neither and they stood so before. */
  lemma {:induction false} StepOrder(s: State, op: Op, t: State, x: nat, y: nat)
    requires TableOk(s.att) && Step(s, op) == Ok(t) && Before(t.att, x, y)
    ensures (Touches(s, op, y) && !Touches(s, op, x)) || ((Touches(s, op, x) <==> Touches(s, op, y)) && Before(s.att, x, y))
  {
    match op
    case Store(addr, data) =>
      StoreMoves(s, BlockOf(addr, s.blockSize), FullBlock(addr, |data|, s.blockSize));
    case Load(addr) => LoadMoves(s, BlockOf(addr, s.blockSize));
    case Migrate(_, _, _, _) => MigrateOrder(s, op, t);
    case Begin => BeginOrder(s, t, x, y);
    case Finish =>
  }

  /** In every reachable state each queue but the free one is in the order of use by the run's calls. */
  lemma {:induction false} QueuesByUse(c: Config, ops: seq<Op>, x: nat, y: nat) returns (d: Config)
    requires Starts(c) && Protocol(c, ops)
    ensures Reached(c, ops, d)
    ensures Before(d.s.att, x, y) ==> UsedBefore(c, ops, x, y)
    decreases |ops|
  {
    d := RunsAreGood(c, ops);
    if ops != [] && Before(d.s.att, x, y) {
      var front, op := ops[..|ops| - 1], ops[|ops| - 1];
      assert Protocol(c, front);
      var m := QueuesByUse(c, front, x, y);
      StepOrder(m.s, op, d.s, x, y);
      UsedNext(c, ops, x, y);
    }
  }

  /** The front of a queue stands before every other block of its state. */
  lemma FrontBefore(s: State, st: EntryState, y: nat)
    requires TableOk(s.att) && (st == Clean || st == Loan) && Place(s, y).state == st
    ensures Queue(s.att, st) != [] && Queue(s.att, st)[0] < |s.att.entries|
    ensures var v := s.att.entries[Queue(s.att, st)[0]].tag; Place(s, v).state == st && (v != y ==> Before(s.att, v, y))
  {
    var c := StateIndex(st);
    var q := s.att.queues[c];
    assert Listing(q, EntriesIn(s.att.entries, c));
    assert TagOk(s.att, y);
    assert s.att.index[y] in q;
    var k :| 0 <= k < |q| && q[k] == s.att.index[y];
    assert q[0] in EntriesIn(s.att.entries, c);
    assert Indexed(s.att, q[0]);
    var v := s.att.entries[q[0]].tag;
    if v != y {
      assert k > 0;
      assert InOrder(q, q[0], q[k]);
    }
  }

  /** In every reachable state, a store that must evict gives its block the entry of the block which, of
      all in the victim's state, the calls of the run used longest ago; no other entry changes. */
  lemma {:induction false} LeastRecentlyUsed(c: Config, ops: seq<Op>, x: nat, full: bool, y: nat) returns (d: Config)
    requires Starts(c) && Protocol(c, ops)
    ensures Exec(c, ops) == Ok(d) && |d.s.att.queues| == 4
    ensures var s, r := d.s, StoreBlock(d.s, x, full);
      r.Ok? && x !in s.att.index && x in r.value.0.att.index && Queue(s.att, Free) == [] ==>
        && r.value.0.att.index[x] < |s.att.entries|
        && var v := s.att.entries[r.value.0.att.index[x]].tag;
        && Place(s, v).state == VictimState(s) && Recycles(s.att, r.value.0.att, x, s.att.index[v])
        && (Place(s, y).state == VictimState(s) && y != v ==> UsedBefore(c, ops, v, y))
  {
    d := RunsAreGood(c, ops);
    var s, r := d.s, StoreBlock(d.s, x, full);
    if r.Ok? && x !in s.att.index && x in r.value.0.att.index && Queue(s.att, Free) == [] {
      StoreRecycles(s, x, full, r.value.0, r.value.1);
      var st := VictimState(s);
      var i := Queue(s.att, st)[0];
      FrontHolds(s, st);
      var v := s.att.entries[i].tag;
      if Place(s, y).state == st && y != v {
        FrontBefore(s, st, y);
        var e := QueuesByUse(c, ops, v, y);
      }
    }
  }

  lemma FrontHolds(s: State, st: EntryState)
    requires TableOk(s.att) && (st == Clean || st == Loan) && Queue(s.att, st) != []
    ensures var i := Queue(s.att, st)[0];
      i < |s.att.entries| && var v := s.att.entries[i].tag; v in s.att.index && s.att.index[v] == i && Place(s, v).state == st
  {
    var c := StateIndex(st);
    assert Listing(s.att.queues[c], EntriesIn(s.att.entries, c));
    assert Queue(s.att, st)[0] in EntriesIn(s.att.entries, c);
    assert Indexed(s.att, Queue(s.att, st)[0]);
  }
}
