/** The address translation table (ATT): entries, the tag index and four queues of entry numbers. */
module TranslationTables {
  import opened Outcomes
  import opened Lists
  import opened Counting

  datatype EntryState = Clean | Loan | Free | Dirty | Hidden | Temp | Stained

  /** Dirty, Hidden, Temp and Stained entries share the last queue. */
  function StateIndex(st: EntryState): (q: nat)
    ensures q < 4
  {
    match st
    case Clean => 0
    case Loan => 1
    case Free => 2
    case _ => 3
  }

  datatype Entry = Entry(state: EntryState, tag: nat, base: nat, epochReads: nat, epochWrites: nat)

  datatype Table = Table(entries: seq<Entry>, index: map<nat, nat>, queues: seq<seq<nat>>)

  function Queue(t: Table, st: EntryState): seq<nat>
    requires |t.queues| == 4
  {
    t.queues[StateIndex(st)]
  }

  /** An indexed tag leads to a live entry with that tag. */
  ghost predicate TagOk(t: Table, g: nat) {
    g in t.index ==>
      t.index[g] < |t.entries| && t.entries[t.index[g]].state != Free && t.entries[t.index[g]].tag == g
  }

  /** A live entry is the one its tag is indexed to. */
  ghost predicate Indexed(t: Table, i: nat) {
    i < |t.entries| && t.entries[i].state != Free ==>
      t.entries[i].tag in t.index && t.index[t.entries[i].tag] == i
  }

  /** `tag_index_` is a bijection between the live tags and the non-Free entries. */
  ghost predicate IndexOk(t: Table) {
    (forall g :: TagOk(t, g)) && (forall i :: Indexed(t, i))
  }

  /** The entries whose state belongs to queue `q`. */
  ghost function EntriesIn(es: seq<Entry>, q: nat): (r: set<nat>)
    ensures forall i: nat :: i in r <==> i < |es| && StateIndex(es[i].state) == q
  {
    set i | i in Range(|es|) && StateIndex(es[i].state) == q
  }

  /** Every entry is in exactly the queue of its state, once. */
  ghost predicate QueuesOk(t: Table) {
    && |t.queues| == 4
    && forall q :: 0 <= q < 4 ==> Listing(t.queues[q], EntriesIn(t.entries, q))
  }

  ghost predicate TableOk(t: Table) {
    IndexOk(t) && QueuesOk(t)
  }

  /** `GetQueue(entry.state).Remove(i)` is only meaningful for an entry linked there. */
  predicate Linked(t: Table, i: nat) {
    && |t.queues| == 4 && i < |t.entries|
    && i in t.queues[StateIndex(t.entries[i].state)]
  }

  /** Unlink `i` from the queue of its state and append it to the queue of `st`. */
  function Requeue(t: Table, i: nat, st: EntryState): Table
    requires Linked(t, i)
  {
    var q := StateIndex(t.entries[i].state);
    var cut := t.queues[q := Without(t.queues[q], i)];
    var p := StateIndex(st);
    t.(queues := cut[p := cut[p] + [i]])
  }

  /** A hit moves the entry to the back of its queue. */
  function Lookup(t: Table, tag: nat): (r: Outcome<(Table, Option<nat>)>)
    ensures r.Ok? ==> r.value.0.entries == t.entries && r.value.0.index == t.index
    ensures r.Ok? ==> r.value.1 == if tag in t.index then Some(t.index[tag]) else None
    ensures r.Ok? && r.value.1.Some? ==> r.value.1.value < |t.entries|
  {
    if tag !in t.index then Ok((t, None))
    else
      var i := t.index[tag];
      :- Assert(Linked(t, i));
      :- Assert(t.entries[i].state != Free && t.entries[i].tag == tag);
      Ok((Requeue(t, i, t.entries[i].state), Some(i)))
  }

  function Setup(t: Table, tag: nat, base: nat, st: EntryState): (r: Outcome<(Table, nat)>)
    ensures r.Ok? ==> r.value.1 < |t.entries| == |r.value.0.entries|
  {
    (:- Assert(tag !in t.index);
     :- Assert(|t.queues| == 4 && Queue(t, Free) != []);
     var i := Queue(t, Free)[0];
     :- Assert(i < |t.entries|);
     var cut := t.queues[StateIndex(Free) := Queue(t, Free)[1..]];
     var q := StateIndex(st);
     Ok((Table(t.entries[i := t.entries[i].(state := st, tag := tag, base := base)],
               t.index[tag := i],
               cut[q := cut[q] + [i]]), i)))
  }

  function ShiftState(t: Table, i: nat, st: EntryState): Outcome<Table> {
    (:- Assert(Linked(t, i));
     :- Assert(t.entries[i].state != st);
     var index := if st == Free then t.index - {t.entries[i].tag} else t.index;
     Ok(Requeue(t, i, st).(entries := t.entries[i := t.entries[i].(state := st)], index := index)))
  }

  function Reset(t: Table, i: nat, base: nat, st: EntryState): Outcome<Table> {
    (:- Assert(i < |t.entries|);
     ShiftState(t.(entries := t.entries[i := t.entries[i].(base := base)]), i, st))
  }

  function AddRead(t: Table, i: nat): Outcome<Table> {
    (:- Assert(i < |t.entries|);
     Ok(t.(entries := t.entries[i := t.entries[i].(epochReads := t.entries[i].epochReads + 1)])))
  }

  function AddWrite(t: Table, i: nat): Outcome<Table> {
    (:- Assert(i < |t.entries|);
     Ok(t.(entries := t.entries[i := t.entries[i].(epochWrites := t.entries[i].epochWrites + 1)])))
  }

  function ClearedEntries(es: seq<Entry>): (r: seq<Entry>)
    ensures |r| == |es|
    ensures forall i :: 0 <= i < |es| ==> r[i] == es[i].(epochReads := 0, epochWrites := 0)
  {
    if es == [] then [] else ClearedEntries(es[..|es| - 1]) + [es[|es| - 1].(epochReads := 0, epochWrites := 0)]
  }

  function ClearStats(t: Table): Table {
    t.(entries := ClearedEntries(t.entries))
  }

  function Iota(n: nat): (r: seq<nat>)
    ensures |r| == n && forall i :: 0 <= i < n ==> r[i] == i
  {
    seq(n, i => i)
  }

  function Fresh(length: nat): (t: Table)
    ensures |t.entries| == length
    ensures forall i :: 0 <= i < length ==> t.entries[i] == Entry(Free, 0, 0, 0, 0)
  {
    Table(seq(length, i => Entry(Free, 0, 0, 0, 0)), map[], [[], [], Iota(length), []])
  }

  lemma FreshOk(length: nat)
    ensures TableOk(Fresh(length))
  {
    var t := Fresh(length);
    forall q | 0 <= q < 4 ensures Listing(t.queues[q], EntriesIn(t.entries, q)) {
      if q == 2 {
        forall i: nat | i < length ensures i in t.queues[2] {
          assert t.queues[2][i] == i;
        }
      }
    }
  }

  lemma EntriesInUpdate(es: seq<Entry>, i: nat, e: Entry, q: nat)
    requires i < |es|
    ensures EntriesIn(es[i := e], q) ==
      if StateIndex(e.state) == q then EntriesIn(es, q) + {i} else EntriesIn(es, q) - {i}
  {
  }

  /** Requeueing keeps the queues coherent with the entry in its new state. */
  lemma RequeueOk(t: Table, i: nat, e: Entry)
    requires QueuesOk(t) && i < |t.entries|
    ensures Linked(t, i)
    ensures QueuesOk(Requeue(t, i, e.state).(entries := t.entries[i := e]))
  {
    var q0 := StateIndex(t.entries[i].state);
    assert Listing(t.queues[q0], EntriesIn(t.entries, q0));
    var r := Requeue(t, i, e.state).(entries := t.entries[i := e]);
    var p := StateIndex(e.state);
    forall q | 0 <= q < 4 ensures Listing(r.queues[q], EntriesIn(r.entries, q)) {
      EntriesInUpdate(t.entries, i, e, q);
      var s := EntriesIn(t.entries, q);
      assert Listing(t.queues[q], s);
      WithoutListing(t.queues[q], s, i);
      if q != q0 {
        WithoutAbsent(t.queues[q], i);
      }
      if q == p {
        AppendListing(Without(t.queues[q], i), s - {i}, i);
        assert s - {i} + {i} == s + {i};
      }
    }
  }

  lemma IndexFrame(t: Table, u: Table)
    requires IndexOk(t) && u.entries == t.entries && u.index == t.index
    ensures IndexOk(u)
  {
    forall g ensures TagOk(u, g) {
      assert TagOk(t, g);
    }
    forall i ensures Indexed(u, i) {
      assert Indexed(t, i);
    }
  }

  /** Rewriting entry `i` and the index at its tag `x` keeps the bijection. */
  lemma IndexUpdate(t: Table, u: Table, i: nat, x: nat)
    requires IndexOk(t) && i < |t.entries| && |u.entries| == |t.entries|
    requires u.entries == t.entries[i := u.entries[i]]
    requires t.entries[i].state != Free ==> t.entries[i].tag == x
    requires t.entries[i].state == Free ==> x !in t.index
    requires u.entries[i].state != Free ==> u.entries[i].tag == x
    requires u.index == if u.entries[i].state == Free then t.index - {x} else t.index[x := i]
    ensures IndexOk(u)
  {
    forall g ensures TagOk(u, g) {
      assert TagOk(t, g) && Indexed(t, i);
    }
    forall j ensures Indexed(u, j) {
      assert Indexed(t, j) && Indexed(t, i) && TagOk(t, x);
    }
  }

  lemma LookupOk(t: Table, tag: nat)
    requires TableOk(t)
    ensures Lookup(t, tag).Ok?
    ensures TableOk(Lookup(t, tag).value.0)
  {
    assert TagOk(t, tag);
    if tag in t.index {
      var i := t.index[tag];
      RequeueOk(t, i, t.entries[i]);
      assert t.entries[i := t.entries[i]] == t.entries;
      IndexFrame(t, Lookup(t, tag).value.0);
    }
  }

  lemma SetupOk(t: Table, tag: nat, base: nat, st: EntryState)
    requires TableOk(t) && st != Free
    ensures Setup(t, tag, base, st).Ok? <==> tag !in t.index && Queue(t, Free) != []
    ensures Setup(t, tag, base, st).Ok? ==>
      var (t1, i) := Setup(t, tag, base, st).value;
      && TableOk(t1) && i < |t.entries| && t.entries[i].state == Free
      && t1.index == t.index[tag := i]
      && t1.entries == t.entries[i := t.entries[i].(state := st, tag := tag, base := base)]
  {
    if tag !in t.index && Queue(t, Free) != [] {
      var i := Queue(t, Free)[0];
      assert i in EntriesIn(t.entries, 2);
      var e := t.entries[i].(state := st, tag := tag, base := base);
      RequeueOk(t, i, e);
      IndexUpdate(t, Setup(t, tag, base, st).value.0, i, tag);
      assert Without(Queue(t, Free), i) == Queue(t, Free)[1..];
    }
  }

  lemma ShiftStateOk(t: Table, i: nat, st: EntryState)
    requires TableOk(t) && i < |t.entries| && t.entries[i].state != Free
    ensures ShiftState(t, i, st).Ok? <==> t.entries[i].state != st
    ensures ShiftState(t, i, st).Ok? ==>
      var t1 := ShiftState(t, i, st).value;
      && TableOk(t1)
      && t1.entries == t.entries[i := t.entries[i].(state := st)]
      && t1.index == if st == Free then t.index - {t.entries[i].tag} else t.index
  {
    RequeueOk(t, i, t.entries[i].(state := st));
    if t.entries[i].state != st {
      assert Indexed(t, i);
      var x := t.entries[i].tag;
      assert t.index[x := i] == t.index;
      IndexUpdate(t, ShiftState(t, i, st).value, i, x);
    }
  }

  lemma ResetOk(t: Table, i: nat, base: nat, st: EntryState)
    requires TableOk(t) && i < |t.entries| && t.entries[i].state != Free && st != Free
    ensures Reset(t, i, base, st).Ok? <==> t.entries[i].state != st
    ensures Reset(t, i, base, st).Ok? ==>
      var t1 := Reset(t, i, base, st).value;
      && TableOk(t1)
      && t1.entries == t.entries[i := t.entries[i].(state := st, base := base)]
      && t1.index == t.index
  {
    var t0 := t.(entries := t.entries[i := t.entries[i].(base := base)]);
    StatsOk(t, t0.entries);
    ShiftStateOk(t0, i, st);
  }

  /** Statistics do not affect coherence. */
  lemma StatsOk(t: Table, es: seq<Entry>)
    requires TableOk(t) && |es| == |t.entries|
    requires forall i :: 0 <= i < |es| ==> es[i].state == t.entries[i].state && es[i].tag == t.entries[i].tag
    ensures TableOk(t.(entries := es))
  {
    forall q | 0 <= q < 4 ensures EntriesIn(es, q) == EntriesIn(t.entries, q) {}
    var u := t.(entries := es);
    forall g ensures TagOk(u, g) {
      assert TagOk(t, g);
    }
    forall i ensures Indexed(u, i) {
      assert Indexed(t, i);
    }
  }

  lemma EntriesParts(es: seq<Entry>)
    ensures |EntriesIn(es, 0)| + |EntriesIn(es, 1)| + |EntriesIn(es, 2)| + |EntriesIn(es, 3)| == |es|
  {
    var a, b, c, d := EntriesIn(es, 0), EntriesIn(es, 1), EntriesIn(es, 2), EntriesIn(es, 3);
    assert forall i: nat :: i in a + b + c + d <==> i in Range(|es|);
    assert a + b + c + d == Range(|es|);
    FourParts(a, b, c, d, |es|);
  }

  /** The four queues together hold every entry exactly once. */
  lemma QueueLengths(t: Table)
    requires TableOk(t)
    ensures |t.queues[0]| + |t.queues[1]| + |t.queues[2]| + |t.queues[3]| == |t.entries|
  {
    ListingCardinality(t.queues[0], EntriesIn(t.entries, 0));
    ListingCardinality(t.queues[1], EntriesIn(t.entries, 1));
    ListingCardinality(t.queues[2], EntriesIn(t.entries, 2));
    ListingCardinality(t.queues[3], EntriesIn(t.entries, 3));
    EntriesParts(t.entries);
  }
}
