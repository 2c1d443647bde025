/** Visiting a queue while the visitor takes the visited entry off it. */
module QueueWalks {
  import opened Lists
  import opened TranslationTables
  import opened Controllers

  /** Entry `i` heads the queue of its state. */
  ghost predicate Heads(t: Table, i: nat) {
    QueuesOk(t) && Linked(t, i) && t.queues[StateIndex(t.entries[i].state)][0] == i
  }

  /** Moving the head to another queue leaves the rest. */
  lemma HeadLeaves(t: Table, i: nat, st: EntryState)
    requires Heads(t, i) && ShiftState(t, i, st).Ok? && StateIndex(st) != StateIndex(t.entries[i].state)
    ensures Queue(ShiftState(t, i, st).value, t.entries[i].state) == Queue(t, t.entries[i].state)[1..]
  {
  }

  lemma {:induction false} WithoutLast(q: seq<nat>, i: nat)
    requires i !in q
    ensures Without(q + [i], i) == q
  {
    if q != [] {
      WithoutLast(q[1..], i);
      assert (q + [i])[1..] == q[1..] + [i];
    }
  }

  /** So does moving it to the back of its own queue first. */
  lemma HeadCycles(t: Table, i: nat, base: nat, mid: EntryState, st: EntryState)
    requires Heads(t, i) && StateIndex(mid) == StateIndex(t.entries[i].state) != StateIndex(st)
    requires Reset(t, i, base, mid).Ok? && ShiftState(Reset(t, i, base, mid).value, i, st).Ok?
    ensures Queue(ShiftState(Reset(t, i, base, mid).value, i, st).value, mid) == Queue(t, mid)[1..]
  {
    var a := StateIndex(mid);
    var q := t.queues[a];
    assert Listing(q, EntriesIn(t.entries, a));
    assert forall k :: 0 < k < |q| ==> q[0] != q[k];
    assert i !in q[1..];
    var m := Reset(t, i, base, mid).value;
    assert m.queues[a] == q[1..] + [i];
    WithoutLast(q[1..], i);
  }

  /** The visitor of the dirty queue removes exactly the entry it visits. */
  lemma CleanedQueue(s: State, i: nat)
    requires QueuesOk(s.att) && Queue(s.att, Dirty) != [] && i == Queue(s.att, Dirty)[0]
    requires CleanEntry(s, i).Ok?
    ensures |CleanEntry(s, i).value.att.queues| == 4
    ensures Queue(CleanEntry(s, i).value.att, Dirty) == Queue(s.att, Dirty)[1..]
  {
    assert Listing(s.att.queues[3], EntriesIn(s.att.entries, 3));
    assert Heads(s.att, i);
    var e := s.att.entries[i];
    match e.state {
      case Stained =>
        HeadCycles(s.att, i, DirtyStained(s, i, true).value.1, Dirty, Clean);
      case Temp =>
        HeadCycles(s.att, i, e.tag, Hidden, Free);
      case Dirty =>
        HeadLeaves(s.att, i, Clean);
      case Hidden =>
        HeadLeaves(s.att, i, Free);
      case _ =>
    }
  }

  lemma FreedQueue(s: State, i: nat)
    requires QueuesOk(s.att) && Queue(s.att, Loan) != [] && i == Queue(s.att, Loan)[0]
    requires FreeLoan(s, i, true).Ok?
    ensures |FreeLoan(s, i, true).value.att.queues| == 4
    ensures Queue(FreeLoan(s, i, true).value.att, Loan) == Queue(s.att, Loan)[1..]
  {
    assert Listing(s.att.queues[1], EntriesIn(s.att.entries, 1));
    HeadLeaves(s.att, i, Free);
  }
}
