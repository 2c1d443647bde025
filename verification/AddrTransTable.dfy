/** The address translation table as it is laid out: entries, their queue links, the tag index. */
module AddrTransTables {
  import opened Outcomes
  import opened Lists
  import opened TranslationTables
  import Spec = TranslationTables
  import opened IndexQueues

  /** No queue holds another queue's member. */
  ghost predicate Apart(qs: seq<seq<nat>>) {
    forall a, b, k :: 0 <= a < |qs| && 0 <= b < |qs| && a != b && 0 <= k < |qs[a]| ==> qs[a][k] !in qs[b]
  }

  /** No queue holds `i`. */
  ghost predicate Nowhere(qs: seq<seq<nat>>, i: nat) {
    forall b :: 0 <= b < |qs| ==> i !in qs[b]
  }

  lemma QueuesApart(t: Table)
    requires QueuesOk(t)
    ensures Apart(t.queues)
  {
    forall a, b, k | 0 <= a < 4 && 0 <= b < 4 && a != b && 0 <= k < |t.queues[a]| ensures t.queues[a][k] !in t.queues[b] {
      assert Listing(t.queues[a], EntriesIn(t.entries, a)) && Listing(t.queues[b], EntriesIn(t.entries, b));
      assert t.queues[a][k] in t.queues[a];
    }
  }

  /** Unlinking keeps the queues apart. */
  lemma {:induction false} CutApart(qs: seq<seq<nat>>, a: nat, i: nat)
    requires Apart(qs) && a < |qs| && NoDup(qs[a]) && i in qs[a]
    ensures Apart(qs[a := Without(qs[a], i)])
    ensures Nowhere(qs[a := Without(qs[a], i)], i)
  {
    WithoutMembers(qs[a], i);
    var rs := qs[a := Without(qs[a], i)];
    forall b, c, k | 0 <= b < |qs| && 0 <= c < |qs| && b != c && 0 <= k < |rs[b]| ensures rs[b][k] !in rs[c] {
      var x := rs[b][k];
      assert x in qs[b];
      var j :| 0 <= j < |qs[b]| && qs[b][j] == x;
    }
    var j :| 0 <= j < |qs[a]| && qs[a][j] == i;
  }

  lemma SetupQueues(t: Table, tag: nat, base: nat, st: EntryState)
    requires QueuesOk(t) && Setup(t, tag, base, st).Ok?
    ensures QueuesOk(Setup(t, tag, base, st).value.0)
  {
    var i := Queue(t, Free)[0];
    assert Listing(t.queues[2], EntriesIn(t.entries, 2));
    assert Without(Queue(t, Free), i) == Queue(t, Free)[1..];
    RequeueOk(t, i, t.entries[i].(state := st, tag := tag, base := base));
  }

  class AddrTransTable {
    const entries: array<Entry>
    const nodes: array<IndexNode>
    const queues: seq<IndexQueue>
    var tagIndex: map<nat, nat>
    /** The table this object represents. */
    ghost var view: Table

    /** Four different queues thread their links through `nodes`. */
    ghost predicate Wired() {
      && nodes.Length == entries.Length && |queues| == 4
      && (forall a :: 0 <= a < 4 ==> queues[a].nodes == nodes)
      && (forall a, b :: 0 <= a < b < 4 ==> queues[a] != queues[b])
    }

    /** Queue `a` is well linked and holds `qs[a]`. */
    ghost predicate Holds(qs: seq<seq<nat>>, a: nat)
      requires Wired()
      reads queues, nodes
    {
      a < 4 && a < |qs| ==> queues[a].Valid() && queues[a].contents == qs[a]
    }

    ghost predicate HoldsAll(qs: seq<seq<nat>>)
      requires Wired()
      reads queues, nodes
    {
      |qs| == 4 && forall a :: Holds(qs, a)
    }

    /** Entries and queues are those of `view`. */
    ghost predicate Threaded()
      reads this, entries, nodes, queues
    {
      Wired() && QueuesOk(view) && HoldsAll(view.queues) && view.entries == entries[..]
    }

    ghost predicate Valid()
      reads this, entries, nodes, queues
    {
      Threaded() && view.index == tagIndex
    }

    /** Takes `i` off queue `a`. */
    method Unlink(i: nat, a: nat, ghost qs: seq<seq<nat>>)
      requires Wired() && HoldsAll(qs) && Apart(qs) && a < 4 && i in qs[a]
      modifies queues[a], nodes
      ensures var rs := qs[a := Without(qs[a], i)];
        HoldsAll(rs) && Apart(rs) && Nowhere(rs, i)
      ensures i < nodes.Length && nodes[i] == IndexNode(NONE, NONE)
    {
      assert Holds(qs, a);
      CutApart(qs, a, i);
      queues[a].Remove(i);
      ghost var rs := qs[a := Without(qs[a], i)];
      forall b: nat ensures Holds(rs, b) {
        assert old(Holds(qs, b));
        if b < 4 && b != a {
          ChainFrame(old(nodes[..]), nodes[..], qs[b]);
        }
      }
    }

    /** Appends the unlinked `i` to queue `b`. */
    method Link(i: nat, b: nat, ghost qs: seq<seq<nat>>)
      requires Wired() && HoldsAll(qs) && Apart(qs) && b < 4 && Nowhere(qs, i)
      requires i < nodes.Length && nodes[i] == IndexNode(NONE, NONE)
      modifies queues[b], nodes
      ensures HoldsAll(qs[b := qs[b] + [i]])
    {
      assert Holds(qs, b);
      queues[b].PushBack(i);
      ghost var rs := qs[b := qs[b] + [i]];
      forall c: nat ensures Holds(rs, c) {
        assert old(Holds(qs, c));
        if c < 4 && c != b {
          ChainFrame(old(nodes[..]), nodes[..], qs[c]);
        }
      }
    }

    /** `Remove` from the queue of its state, then `PushBack` to the queue of `st`. */
    method Relink(i: nat, st: EntryState)
      requires Threaded() && i < entries.Length
      modifies nodes, queues
      ensures Linked(view, i) && HoldsAll(Requeue(view, i, st).queues)
    {
      QueuesApart(view);
      RequeueOk(view, i, view.entries[i]);
      var a, b := StateIndex(entries[i].state), StateIndex(st);
      Unlink(i, a, view.queues);
      Link(i, b, view.queues[a := Without(view.queues[a], i)]);
    }

    constructor (length: nat)
      ensures Valid() && view == Fresh(length) && entries.Length == length
      ensures fresh(entries) && fresh(nodes) && forall a :: 0 <= a < 4 ==> fresh(queues[a])
    {
      var es := new Entry[length](_ => Entry(Free, 0, 0, 0, 0));
      var ns := new IndexNode[length](_ => IndexNode(NONE, NONE));
      var q := FilledQueue(ns);
      var q0 := new IndexQueue(ns);
      var q1 := new IndexQueue(ns);
      var q3 := new IndexQueue(ns);
      entries, nodes, queues, tagIndex := es, ns, [q0, q1, q, q3], map[];
      view := Fresh(length);
      new;
      FreshThreaded(length);
    }

    lemma FreshThreaded(length: nat)
      requires Wired() && view == Fresh(length) && entries.Length == length
      requires forall i :: 0 <= i < length ==> entries[i] == Entry(Free, 0, 0, 0, 0)
      requires queues[0].Valid() && queues[1].Valid() && queues[2].Valid() && queues[3].Valid()
      requires queues[0].contents == queues[1].contents == queues[3].contents == []
      requires queues[2].contents == Iota(length)
      ensures Threaded()
    {
      FreshOk(length);
      assert entries[..] == view.entries;
      assert Holds(view.queues, 0) && Holds(view.queues, 1) && Holds(view.queues, 2) && Holds(view.queues, 3);
    }

    /** A queue of all nodes in ascending order. */
    static method FilledQueue(ns: array<IndexNode>) returns (q: IndexQueue)
      requires forall j :: 0 <= j < ns.Length ==> ns[j] == IndexNode(NONE, NONE)
      modifies ns
      ensures fresh(q) && q.nodes == ns && q.Valid() && q.contents == Iota(ns.Length)
    {
      q := new IndexQueue(ns);
      for i := 0 to ns.Length
        invariant fresh(q) && q.nodes == ns && q.Valid() && q.contents == Iota(i)
        invariant forall j :: i <= j < ns.Length ==> ns[j] == IndexNode(NONE, NONE)
      {
        q.PushBack(i);
        assert Iota(i) + [i] == Iota(i + 1);
      }
    }

    /** A hit returns the entry and makes it the most recent of its queue. */
    method Lookup(tag: nat) returns (i: int)
      requires Valid() && Spec.Lookup(view, tag).Ok?
      modifies this, nodes, queues
      ensures Valid() && Spec.Lookup(old(view), tag) == Ok((view, if i == NONE then None else Some(i)))
    {
      if tag !in tagIndex {
        return NONE;
      }
      i := tagIndex[tag];
      RequeueOk(view, i, view.entries[i]);
      assert view.entries[i := view.entries[i]] == view.entries;
      Relink(i, entries[i].state);
      view := Requeue(view, i, view.entries[i].state);
    }

    method Setup(tag: nat, base: nat, st: EntryState) returns (i: nat)
      requires Valid() && Spec.Setup(view, tag, base, st).Ok?
      modifies this, entries, nodes, queues
      ensures Valid() && Spec.Setup(old(view), tag, base, st) == Ok((view, i))
    {
      SetupQueues(view, tag, base, st);
      QueuesApart(view);
      ghost var was := view;
      assert Holds(view.queues, 2);
      i := queues[2].front;
      Unlink(i, 2, view.queues);
      Link(i, StateIndex(st), was.queues[2 := Without(was.queues[2], i)]);
      entries[i] := entries[i].(state := st, tag := tag, base := base);
      tagIndex := tagIndex[tag := i];
      view := Spec.Setup(view, tag, base, st).value.0;
    }

    method ShiftState(i: nat, st: EntryState)
      requires Valid() && Spec.ShiftState(view, i, st).Ok?
      modifies this, entries, nodes, queues
      ensures Valid() && Spec.ShiftState(old(view), i, st) == Ok(view)
    {
      RequeueOk(view, i, view.entries[i].(state := st));
      if st == Free {
        tagIndex := tagIndex - {entries[i].tag};
      }
      Relink(i, st);
      entries[i] := entries[i].(state := st);
      view := Spec.ShiftState(view, i, st).value;
    }

    method Reset(i: nat, base: nat, st: EntryState)
      requires Valid() && Spec.Reset(view, i, base, st).Ok?
      modifies this, entries, nodes, queues
      ensures Valid() && Spec.Reset(old(view), i, base, st) == Ok(view)
    {
      SetEntry(i, entries[i].(base := base));
      ShiftState(i, st);
    }

    /** Rewrites an entry in place, its state aside. */
    method SetEntry(i: nat, e: Entry)
      requires Valid() && i < entries.Length && e.state == view.entries[i].state
      modifies this, entries
      ensures Valid() && view == old(view).(entries := old(view).entries[i := e])
    {
      entries[i] := e;
      SetEntries(view.entries[i := e]);
    }

    method AddBlockRead(i: nat)
      requires Valid() && AddRead(view, i).Ok?
      modifies this, entries
      ensures Valid() && AddRead(old(view), i) == Ok(view)
    {
      SetEntry(i, entries[i].(epochReads := entries[i].epochReads + 1));
    }

    method AddBlockWrite(i: nat)
      requires Valid() && AddWrite(view, i).Ok?
      modifies this, entries
      ensures Valid() && AddWrite(old(view), i) == Ok(view)
    {
      SetEntry(i, entries[i].(epochWrites := entries[i].epochWrites + 1));
    }

    method ClearStats()
      requires Valid()
      modifies this, entries
      ensures Valid() && view == Spec.ClearStats(old(view))
    {
      for i := 0 to entries.Length
        modifies entries
        invariant forall j :: 0 <= j < i ==> entries[j] == old(entries[j]).(epochReads := 0, epochWrites := 0)
        invariant forall j :: i <= j < entries.Length ==> entries[j] == old(entries[j])
      {
        entries[i] := entries[i].(epochReads := 0, epochWrites := 0);
      }
      SetEntries(Spec.ClearStats(view).entries);
    }

    /** Accounts for entries rewritten in place, their states aside. */
    ghost method SetEntries(es: seq<Entry>)
      requires Wired() && QueuesOk(view) && HoldsAll(view.queues) && view.index == tagIndex
      requires es == entries[..] && |es| == |view.entries|
      requires forall i :: 0 <= i < |es| ==> es[i].state == view.entries[i].state
      modifies this`view
      ensures Valid() && view == old(view).(entries := es)
    {
      assert forall q :: 0 <= q < 4 ==> EntriesIn(es, q) == EntriesIn(view.entries, q);
      view := view.(entries := es);
      assert forall a :: old(Holds(view.queues, a)) ==> Holds(view.queues, a);
    }

    predicate Contains(tag: nat)
      requires Valid()
      reads this, entries, nodes, queues
      ensures Contains(tag) <==> tag in view.index
    {
      tag in tagIndex
    }

    function GetLength(st: EntryState): (n: int)
      requires Valid()
      reads this, entries, nodes, queues
      ensures n == |Queue(view, st)|
    {
      assert Holds(view.queues, StateIndex(st));
      queues[StateIndex(st)].length
    }

    predicate IsEmpty(st: EntryState)
      requires Valid()
      reads this, entries, nodes, queues
      ensures IsEmpty(st) <==> Queue(view, st) == []
    {
      assert Holds(view.queues, StateIndex(st));
      queues[StateIndex(st)].IsEmpty()
    }

    function GetFront(st: EntryState): (i: int)
      requires Valid()
      reads this, entries, nodes, queues
      ensures i == FrontOf(Queue(view, st))
    {
      assert Holds(view.queues, StateIndex(st));
      queues[StateIndex(st)].front
    }
  }
}
