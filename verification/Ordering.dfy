/** The order of the entries in their queues, by tag, and how the table's operations change it. */
module Ordering {
  import opened Outcomes
  import opened Lists
  import opened TranslationTables
  import opened Controllers

  /** `i` stands before `j` in `q`. */
  ghost predicate InOrder(q: seq<nat>, i: nat, j: nat) {
    exists k, l :: 0 <= k < l < |q| && q[k] == i && q[l] == j
  }

  /** The entries of `x` and `y` are in one queue, other than the free one, that of `x` first. */
  ghost predicate Before(t: Table, x: nat, y: nat) {
    && x in t.index && y in t.index && |t.queues| == 4
    && exists c :: 0 <= c < 4 && c != 2 && InOrder(t.queues[c], t.index[x], t.index[y])
  }

  /** What is in order in `b` was so in `a`. */
  ghost predicate KeepsOrder(a: Table, b: Table) {
    TableOk(b) && forall x, y :: Before(b, x, y) ==> Before(a, x, y)
  }

  /** Likewise, but for the entry of `g`, which is last in its queue. */
  ghost predicate MovesLast(a: Table, b: Table, g: nat) {
    TableOk(b) && forall x, y :: Before(b, x, y) ==> x != g && (y == g || Before(a, x, y))
  }

  lemma {:induction false} InOrderWithout(q: seq<nat>, i: nat, j: nat, l: nat)
    requires NoDup(q) && InOrder(Without(q, i), j, l)
    ensures InOrder(q, j, l) && j != i && l != i
  {
    WithoutMembers(q, i);
    var w := Without(q, i);
    var m, n :| 0 <= m < n < |w| && w[m] == j && w[n] == l;
    assert j in w && l in w;
    if i in q {
      var k :| 0 <= k < |q| && q[k] == i;
      WithoutAt(q, k);
      assert q[if m < k then m else m + 1] == j && q[if n < k then n else n + 1] == l;
    } else {
      WithoutAbsent(q, i);
    }
  }

  lemma InOrderAppend(q: seq<nat>, i: nat, j: nat, l: nat)
    requires i !in q && InOrder(q + [i], j, l)
    ensures j != i && (l == i || InOrder(q, j, l))
  {
    var m, n :| 0 <= m < n < |q + [i]| && (q + [i])[m] == j && (q + [i])[n] == l;
    assert q[m] == j;
  }

  /** Requeueing `i` puts it last and leaves the others in order. */
  lemma RequeueOrder(t: Table, i: nat, st: EntryState, c: nat, j: nat, l: nat)
    requires QueuesOk(t) && i < |t.entries| && c < 4
    requires Linked(t, i) && InOrder(Requeue(t, i, st).queues[c], j, l)
    ensures j != i && (l == i || InOrder(t.queues[c], j, l))
  {
    var q := StateIndex(t.entries[i].state);
    assert Listing(t.queues[c], EntriesIn(t.entries, c));
    WithoutMembers(t.queues[c], i);
    var w := if c == q then Without(t.queues[c], i) else t.queues[c];
    if c != q {
      assert i !in t.queues[c];
      WithoutAbsent(t.queues[c], i);
    }
    if c == StateIndex(st) {
      InOrderAppend(w, i, j, l);
      if l != i {
        InOrderWithout(t.queues[c], i, j, l);
      }
    } else {
      InOrderWithout(t.queues[c], i, j, l);
    }
  }

  /** Of two distinct tags, the entries are distinct. */
  lemma TagsApart(t: Table, x: nat, y: nat)
    requires TableOk(t) && x in t.index && y in t.index && t.index[x] == t.index[y]
    ensures x == y
  {
    assert TagOk(t, x) && TagOk(t, y);
  }

  /** A table with `g`'s entry requeued. */
  lemma RequeuedMoves(a: Table, b: Table, g: nat, st: EntryState)
    requires TableOk(a) && TableOk(b) && g in a.index && a.index[g] < |a.entries| && Linked(a, a.index[g])
    requires b.queues == Requeue(a, a.index[g], st).queues && b.index == a.index
    ensures MovesLast(a, b, g)
  {
    forall x, y | Before(b, x, y) ensures x != g && (y == g || Before(a, x, y)) {
      var c :| 0 <= c < 4 && c != 2 && InOrder(b.queues[c], b.index[x], b.index[y]);
      RequeueOrder(a, a.index[g], st, c, b.index[x], b.index[y]);
      if b.index[y] == a.index[g] {
        TagsApart(a, y, g);
      }
    }
  }

  lemma LookupMoves(t: Table, g: nat)
    requires TableOk(t)
    ensures Lookup(t, g).Ok? && MovesLast(t, Lookup(t, g).value.0, g)
  {
    LookupOk(t, g);
    if g in t.index {
      assert TagOk(t, g);
      RequeuedMoves(t, Lookup(t, g).value.0, g, t.entries[t.index[g]].state);
    }
  }

  lemma ResetMoves(t: Table, g: nat, base: nat, st: EntryState, u: Table)
    requires TableOk(t) && g in t.index && st != Free && Reset(t, t.index[g], base, st) == Ok(u)
    ensures MovesLast(t, u, g) && u.index == t.index
  {
    assert TagOk(t, g);
    ResetOk(t, t.index[g], base, st);
    RequeuedMoves(t, u, g, st);
  }

  /** A freed entry leaves the order of the others. */
  lemma FreeKeeps(t: Table, i: nat, u: Table)
    requires TableOk(t) && i < |t.entries| && t.entries[i].state != Free && ShiftState(t, i, Free) == Ok(u)
    ensures KeepsOrder(t, u) && u.index == t.index - {t.entries[i].tag}
  {
    ShiftStateOk(t, i, Free);
    assert Indexed(t, i);
    forall x, y | Before(u, x, y) ensures Before(t, x, y) {
      var c :| 0 <= c < 4 && c != 2 && InOrder(u.queues[c], u.index[x], u.index[y]);
      RequeueOrder(t, i, Free, c, u.index[x], u.index[y]);
      if t.index[y] == i {
        TagsApart(t, y, t.entries[i].tag);
      }
    }
  }

  lemma InsertMoves(t: Table, g: nat, base: nat, st: EntryState)
    requires TableOk(t) && st != Free && TranslationTables.Setup(t, g, base, st).Ok?
    ensures MovesLast(t, TranslationTables.Setup(t, g, base, st).value.0, g)
  {
    SetupOk(t, g, base, st);
    var (u, i) := TranslationTables.Setup(t, g, base, st).value;
    assert Without(Queue(t, Free), i) == Queue(t, Free)[1..];
    assert Listing(t.queues[2], EntriesIn(t.entries, 2));
    RequeueOk(t, i, u.entries[i]);
    assert u.queues == Requeue(t, i, st).queues;
    forall x, y | Before(u, x, y) ensures x != g && (y == g || Before(t, x, y)) {
      var c :| 0 <= c < 4 && c != 2 && InOrder(u.queues[c], u.index[x], u.index[y]);
      RequeueOrder(t, i, st, c, u.index[x], u.index[y]);
      if u.index[y] == i {
        TagsApart(u, y, g);
      }
    }
  }

  /** Counters do not matter. */
  lemma CountsKeep(t: Table, es: seq<Entry>)
    requires TableOk(t) && |es| == |t.entries|
    requires forall i :: 0 <= i < |es| ==> es[i].state == t.entries[i].state && es[i].tag == t.entries[i].tag
    ensures KeepsOrder(t, t.(entries := es))
  {
    StatsOk(t, es);
    var u := t.(entries := es);
    forall x, y | Before(u, x, y) ensures Before(t, x, y) {
      var c :| 0 <= c < 4 && c != 2 && InOrder(u.queues[c], u.index[x], u.index[y]);
      assert InOrder(t.queues[c], t.index[x], t.index[y]);
    }
  }

  lemma KeepsTrans(a: Table, b: Table, c: Table)
    requires KeepsOrder(a, b) && KeepsOrder(b, c)
    ensures KeepsOrder(a, c)
  {
  }

  lemma KeepsMoves(a: Table, b: Table, c: Table, g: nat)
    requires KeepsOrder(a, b) && MovesLast(b, c, g)
    ensures MovesLast(a, c, g)
  {
  }

  lemma MovesKeeps(a: Table, b: Table, c: Table, g: nat)
    requires MovesLast(a, b, g) && KeepsOrder(b, c)
    ensures MovesLast(a, c, g)
  {
  }

  lemma MovesTrans(a: Table, b: Table, c: Table, g: nat)
    requires MovesLast(a, b, g) && MovesLast(b, c, g)
    ensures MovesLast(a, c, g)
  {
  }

  /** A load puts its block last. */
  lemma LoadMoves(s: State, g: nat)
    requires TableOk(s.att) && LoadBlock(s, g).Ok?
    ensures MovesLast(s.att, LoadBlock(s, g).value.0.att, g)
  {
    LookupMoves(s.att, g);
    var (att, hit) := Lookup(s.att, g).value;
    if hit.Some? {
      var t := LoadBlock(s, g).value.0;
      CountsKeep(att, t.att.entries);
      MovesKeeps(s.att, att, t.att, g);
    }
  }
}
