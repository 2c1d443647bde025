/** Eviction order: whatever is done to the table, each queue stays sorted by last use. */
module Lru {
  import opened Outcomes
  import opened Lists
  import opened TranslationTables

  datatype TableOp =
    | Find(tag: nat)
    | Insert(tag: nat, base: nat, st: EntryState)
    | Shift(entry: nat, st: EntryState)
    | Rebase(entry: nat, base: nat, st: EntryState)
    | CountRead(entry: nat)
    | CountWrite(entry: nat)
    | ClearCounts

  function Apply(t: Table, op: TableOp): Outcome<Table> {
    match op
    case Find(tag) => (var (t1, _) :- Lookup(t, tag); Ok(t1))
    case Insert(tag, base, st) => (var (t1, _) :- Setup(t, tag, base, st); Ok(t1))
    case Shift(i, st) => ShiftState(t, i, st)
    case Rebase(i, base, st) => Reset(t, i, base, st)
    case CountRead(i) => AddRead(t, i)
    case CountWrite(i) => AddWrite(t, i)
    case ClearCounts => Ok(ClearStats(t))
  }

  /** The table after `ops`, from a fresh table of `n` entries. */
  function After(n: nat, ops: seq<TableOp>): Outcome<Table>
    decreases |ops|
  {
    if ops == [] then Ok(Fresh(n))
    else
      var t :- After(n, ops[..|ops| - 1]);
      Apply(t, ops[|ops| - 1])
  }

  /** `op` looks entry `i` up, or puts it into a queue. */
  ghost predicate Uses(t: Table, op: TableOp, i: nat) {
    match op
    case Find(tag) => tag in t.index && t.index[tag] == i
    case Insert(_, _, _) => |t.queues| == 4 && Queue(t, Free) != [] && Queue(t, Free)[0] == i
    case Shift(j, _) => j == i
    case Rebase(j, _, _) => j == i
    case _ => false
  }

  /** Step `k` of the run uses entry `i`. */
  ghost predicate UsedAt(n: nat, ops: seq<TableOp>, i: nat, k: nat) {
    k < |ops| && After(n, ops[..k]).Ok? && Uses(After(n, ops[..k]).value, ops[k], i)
  }

  /** The last step that used `i`; entries never used count in their initial order, before all steps. */
  ghost function LastUse(n: nat, ops: seq<TableOp>, i: nat): int
    decreases |ops|
  {
    if ops == [] then i - n
    else if UsedAt(n, ops, i, |ops| - 1) then |ops| - 1
    else LastUse(n, ops[..|ops| - 1], i)
  }

  /** `LastUse` is the greatest step that used `i`, or negative if there is none. */
  lemma {:induction false} LastUseIs(n: nat, ops: seq<TableOp>, i: nat)
    requires i < n
    ensures var k := LastUse(n, ops, i); k < |ops| && if k < 0 then k == i - n else UsedAt(n, ops, i, k)
    ensures forall k: nat :: UsedAt(n, ops, i, k) ==> k <= LastUse(n, ops, i)
    decreases |ops|
  {
    if ops != [] {
      var front := ops[..|ops| - 1];
      LastUseIs(n, front, i);
      forall k: nat | k < |ops| - 1 ensures UsedAt(n, ops, i, k) <==> UsedAt(n, front, i, k) {
        assert front[..k] == ops[..k];
      }
    }
  }

  /** Along `q` last uses only get more recent. */
  ghost predicate ByUse(q: seq<nat>, use: map<nat, int>) {
    && (forall k :: 0 <= k < |q| ==> q[k] in use)
    && forall a, b :: 0 <= a < b < |q| ==> use[q[a]] < use[q[b]]
  }

  lemma {:induction false} WithoutByUse(q: seq<nat>, use: map<nat, int>, i: nat)
    requires ByUse(q, use) && NoDup(q)
    ensures ByUse(Without(q, i), use)
  {
    if i in q {
      var k :| 0 <= k < |q| && q[k] == i;
      WithoutAt(q, k);
    } else {
      WithoutAbsent(q, i);
    }
  }

  lemma TouchedByUse(q: seq<nat>, use: map<nat, int>, i: nat, now: int)
    requires ByUse(q, use) && i !in q
    ensures ByUse(q, use[i := now])
    ensures (forall k :: 0 <= k < |q| ==> use[q[k]] < now) ==> ByUse(q + [i], use[i := now])
  {
  }

  /** Every queue is coherent and sorted by last use. */
  ghost predicate Sorted(t: Table, use: map<nat, int>) {
    QueuesOk(t) && forall q :: 0 <= q < 4 ==> ByUse(t.queues[q], use)
  }

  /** Moving an entry to the back of a queue is using it last. */
  lemma RequeueSorted(t: Table, use: map<nat, int>, i: nat, e: Entry, now: int)
    requires Sorted(t, use) && i < |t.entries| && forall j :: j in use ==> use[j] < now
    ensures Linked(t, i) && Sorted(Requeue(t, i, e.state).(entries := t.entries[i := e]), use[i := now])
  {
    RequeueOk(t, i, e);
    var a := StateIndex(t.entries[i].state);
    var r := Requeue(t, i, e.state);
    forall q | 0 <= q < 4 ensures ByUse(r.queues[q], use[i := now]) {
      assert Listing(t.queues[q], EntriesIn(t.entries, q)) && ByUse(t.queues[q], use);
      WithoutMembers(t.queues[q], i);
      WithoutByUse(t.queues[q], use, i);
      if q != a {
        WithoutAbsent(t.queues[q], i);
      }
      TouchedByUse(Without(t.queues[q], i), use, i, now);
    }
  }

  ghost function Used(t: Table, use: map<nat, int>, op: TableOp, now: int): map<nat, int> {
    map i | i in use :: if Uses(t, op, i) then now else use[i]
  }

  lemma ShiftSorted(t: Table, use: map<nat, int>, i: nat, st: EntryState, now: int)
    requires Sorted(t, use) && ShiftState(t, i, st).Ok? && forall j :: j in use ==> use[j] < now
    ensures Sorted(ShiftState(t, i, st).value, use[i := now])
  {
    RequeueSorted(t, use, i, t.entries[i].(state := st), now);
  }

  /** States decide the queues; the other fields of an entry do not matter. */
  lemma SameStatesSorted(t: Table, use: map<nat, int>, es: seq<Entry>)
    requires Sorted(t, use) && |es| == |t.entries|
    requires forall i :: 0 <= i < |es| ==> es[i].state == t.entries[i].state
    ensures Sorted(t.(entries := es), use)
  {
    assert forall q :: 0 <= q < 4 ==> EntriesIn(es, q) == EntriesIn(t.entries, q);
  }

  lemma InsertSorted(t: Table, use: map<nat, int>, tag: nat, base: nat, st: EntryState, now: int)
    requires Sorted(t, use) && Setup(t, tag, base, st).Ok? && forall j :: j in use ==> use[j] < now
    ensures Sorted(Setup(t, tag, base, st).value.0, use[Queue(t, Free)[0] := now])
  {
    var i := Queue(t, Free)[0];
    assert Listing(t.queues[2], EntriesIn(t.entries, 2));
    assert Without(Queue(t, Free), i) == Queue(t, Free)[1..];
    RequeueSorted(t, use, i, t.entries[i].(state := st, tag := tag, base := base), now);
  }

  lemma FindSorted(t: Table, use: map<nat, int>, tag: nat, now: int)
    requires Sorted(t, use) && Lookup(t, tag).Ok? && forall j :: j in use ==> use[j] < now
    ensures Sorted(Lookup(t, tag).value.0, if tag in t.index then use[t.index[tag] := now] else use)
  {
    if tag in t.index {
      var i := t.index[tag];
      RequeueSorted(t, use, i, t.entries[i], now);
      assert t.entries[i := t.entries[i]] == t.entries;
    }
  }

  lemma RebaseSorted(t: Table, use: map<nat, int>, i: nat, base: nat, st: EntryState, now: int)
    requires Sorted(t, use) && Reset(t, i, base, st).Ok? && forall j :: j in use ==> use[j] < now
    ensures Sorted(Reset(t, i, base, st).value, use[i := now])
  {
    var es := t.entries[i := t.entries[i].(base := base)];
    SameStatesSorted(t, use, es);
    ShiftSorted(t.(entries := es), use, i, st, now);
  }

  /** One operation on the table keeps every queue sorted by last use. */
  lemma ApplySorted(t: Table, use: map<nat, int>, op: TableOp, now: int)
    requires Sorted(t, use) && Apply(t, op).Ok? && forall j :: j in use ==> use[j] < now
    requires forall i: nat :: i in use <==> i < |t.entries|
    ensures Sorted(Apply(t, op).value, Used(t, use, op, now)) && |Apply(t, op).value.entries| == |t.entries|
  {
    var next := Used(t, use, op, now);
    match op
    case Find(tag) =>
      FindSorted(t, use, tag, now);
      assert next == if tag in t.index then use[t.index[tag] := now] else use;
    case Insert(tag, base, st) =>
      InsertSorted(t, use, tag, base, st, now);
      assert next == use[Queue(t, Free)[0] := now];
    case Shift(i, st) =>
      ShiftSorted(t, use, i, st, now);
      assert next == use[i := now];
    case Rebase(i, base, st) =>
      RebaseSorted(t, use, i, base, st, now);
      assert next == use[i := now];
    case _ =>
      SameStatesSorted(t, use, Apply(t, op).value.entries);
      assert next == use;
  }

  ghost function LastUses(n: nat, ops: seq<TableOp>): (use: map<nat, int>)
    ensures forall i: nat :: i in use <==> i < n
    ensures forall i :: i in use ==> use[i] == LastUse(n, ops, i)
  {
    map i: nat | i < n :: LastUse(n, ops, i)
  }

  /** In every run of the table, each queue is sorted by last use. */
  lemma {:induction false} AlwaysSorted(n: nat, ops: seq<TableOp>)
    requires After(n, ops).Ok?
    ensures Sorted(After(n, ops).value, LastUses(n, ops)) && |After(n, ops).value.entries| == n
    decreases |ops|
  {
    var use := LastUses(n, ops);
    if ops == [] {
      FreshOk(n);
    } else {
      var front, op, now := ops[..|ops| - 1], ops[|ops| - 1], |ops| - 1;
      AlwaysSorted(n, front);
      var t, before := After(n, front).value, LastUses(n, front);
      forall j | j in before ensures before[j] < now {
        LastUseIs(n, front, j);
      }
      ApplySorted(t, before, op, now);
      assert Used(t, before, op, now) == use;
    }
  }

  /** The entry that eviction takes, the front of its queue, is the one used longest ago. */
  lemma {:induction false} FrontIsOldest(n: nat, ops: seq<TableOp>, st: EntryState, j: nat)
    requires After(n, ops).Ok? && |After(n, ops).value.queues| == 4 && j in Queue(After(n, ops).value, st)
    ensures var front := Queue(After(n, ops).value, st)[0];
      j != front ==> LastUse(n, ops, front) < LastUse(n, ops, j)
  {
    AlwaysSorted(n, ops);
    var q := Queue(After(n, ops).value, st);
    assert ByUse(q, LastUses(n, ops));
  }
}
