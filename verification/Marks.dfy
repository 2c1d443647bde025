/** What every call does to the entry of each block: its state and the stores it counts. */
module Marks {
  import opened Outcomes
  import opened Lists
  import opened TranslationTables
  import opened Controllers
  import opened Stores
  import opened StoreStats
  import opened Eviction
  import opened Ordering
  import opened Recency

  /** The state of a block's entry, Free if it has none, and the stores counted in it. */
  datatype Mark = Mark(state: EntryState, writes: nat)

  ghost function MarkOf(t: Table, x: nat): Mark {
    if x in t.index && t.index[x] < |t.entries| then
      Mark(t.entries[t.index[x]].state, t.entries[t.index[x]].epochWrites)
    else Mark(Free, 0)
  }

  // ----- the table -----

  lemma ResetMark(t: Table, g: nat, base: nat, st: EntryState, u: Table, y: nat)
    requires TableOk(t) && g in t.index && st != Free && Reset(t, t.index[g], base, st) == Ok(u)
    ensures TableOk(u) && u.index == t.index && |u.entries| == |t.entries|
    ensures MarkOf(u, y) == if y == g then MarkOf(t, g).(state := st) else MarkOf(t, y)
  {
    assert TagOk(t, g) && TagOk(t, y);
    ResetOk(t, t.index[g], base, st);
  }

  lemma FreeMark(t: Table, i: nat, u: Table, y: nat)
    requires TableOk(t) && i < |t.entries| && t.entries[i].state != Free && ShiftState(t, i, Free) == Ok(u)
    ensures TableOk(u) && u.index == t.index - {t.entries[i].tag} && u.entries == t.entries[i := t.entries[i].(state := Free)]
    ensures MarkOf(u, y) == if y == t.entries[i].tag then Mark(Free, 0) else MarkOf(t, y)
  {
    ShiftStateOk(t, i, Free);
    assert Indexed(t, i) && TagOk(t, y);
  }

  /** Free entries count no stores. */
  ghost predicate FreeUnwritten(t: Table) {
    forall i :: 0 <= i < |t.entries| && t.entries[i].state == Free ==> t.entries[i].epochWrites == 0
  }

  lemma InsertMark(t: Table, g: nat, base: nat, st: EntryState, y: nat)
    requires TableOk(t) && FreeUnwritten(t) && st != Free && TranslationTables.Setup(t, g, base, st).Ok?
    ensures var (u, i) := TranslationTables.Setup(t, g, base, st).value;
      && TableOk(u) && g in u.index && u.index[g] == i
      && MarkOf(u, y) == if y == g then Mark(st, 0) else MarkOf(t, y)
  {
    SetupOk(t, g, base, st);
    assert TagOk(t, y);
  }

  lemma CountMark(t: Table, g: nat, y: nat)
    requires TableOk(t) && g in t.index && AddWrite(t, t.index[g]).Ok?
    ensures MarkOf(AddWrite(t, t.index[g]).value, y) ==
      if y == g then Mark(MarkOf(t, g).state, MarkOf(t, g).writes + 1) else MarkOf(t, y)
  {
    assert TagOk(t, g) && TagOk(t, y);
  }

  // ----- stores -----

  /** The entry is as it was, or it was retired because none was free. */
  ghost predicate Spared(s: State, a: Mark, b: Mark) {
    b == a || (NoneFree(s.att) && a == Mark(VictimState(s), 0) && b == Mark(Free, 0))
  }

  lemma QuietFree(s: State)
    requires Quiet(s)
    ensures FreeUnwritten(s.att)
  {
    forall i | 0 <= i < |s.att.entries| && s.att.entries[i].state == Free ensures s.att.entries[i].epochWrites == 0 {
      assert QuietAt(s, i);
    }
  }

  lemma VictimMark(s: State, st: EntryState, u: Table, y: nat)
    requires TableOk(s.att) && Quiet(s) && (st == Clean || st == Loan) && Queue(s.att, st) != []
    requires ShiftState(s.att, Queue(s.att, st)[0], Free) == Ok(u)
    ensures TableOk(u) && FreeUnwritten(u) && u.index.Keys <= s.att.index.Keys
    ensures MarkOf(u, y) == MarkOf(s.att, y) || (MarkOf(s.att, y) == Mark(st, 0) && MarkOf(u, y) == Mark(Free, 0))
  {
    var i := Queue(s.att, st)[0];
    assert Listing(s.att.queues[StateIndex(st)], EntriesIn(s.att.entries, StateIndex(st)));
    assert i in EntriesIn(s.att.entries, StateIndex(st));
    QuietFree(s);
    assert QuietAt(s, i) && Indexed(s.att, i);
    FreeMark(s.att, i, u, y);
  }

  lemma EvictCleanMark(s: State, y: nat)
    requires TableOk(s.att) && Quiet(s) && s.ckpt && EvictClean(s).Ok?
    ensures var u := EvictClean(s).value;
      TableOk(u.att) && FreeUnwritten(u.att) && u.att.index.Keys <= s.att.index.Keys &&
      Spared(s, MarkOf(s.att, y), MarkOf(u.att, y))
  {
    QuietFree(s);
    if Queue(s.att, Free) == [] {
      VictimMark(s, Clean, EvictClean(s).value.att, y);
    }
  }

  lemma EvictAnyMark(s: State, y: nat)
    requires TableOk(s.att) && Quiet(s) && !s.ckpt && EvictAny(s).Ok?
    ensures var u := EvictAny(s).value;
      TableOk(u.att) && FreeUnwritten(u.att) && u.att.index.Keys <= s.att.index.Keys &&
      Spared(s, MarkOf(s.att, y), MarkOf(u.att, y))
  {
    QuietFree(s);
    if Queue(s.att, Free) == [] {
      VictimMark(s, VictimAny(s), EvictAny(s).value.att, y);
    }
  }

  /** A store makes a block of NVM dirty or hides it, and while checkpointing stains it or makes it temporary. */
  function StoredState(ckpt: bool, st: EntryState): EntryState {
    if ckpt then (if st == Free || st == Stained then Stained else Temp)
    else if st == Free || st == Stained || st == Dirty then Dirty else Hidden
  }

  lemma HitMark(s: State, g: nat, full: bool, y: nat)
    requires TableOk(s.att) && g in s.att.index
    ensures var r := if s.ckpt then NvmHitCkpt(s, s.att.index[g], full) else NvmHitRunning(s, s.att.index[g], g, full);
      r.Ok? ==>
        var b := r.value.0.att;
        && TableOk(b) && b.index == s.att.index
        && MarkOf(b, y) ==
           if y == g then MarkOf(s.att, g).(state := StoredState(s.ckpt, MarkOf(s.att, g).state)) else MarkOf(s.att, y)
  {
    var i := s.att.index[g];
    assert TagOk(s.att, g);
    if s.ckpt {
      if ResetClean(s, i, !full).Ok? {
        var (u, base) := ResetClean(s, i, !full).value;
        ResetMark(s.att, g, base, Temp, u.att, y);
      }
    } else if s.att.entries[i].state == Temp {
      if HideTemp(s, i, !full).Ok? {
        ResetMark(s.att, g, g, Hidden, HideTemp(s, i, !full).value.att, y);
      }
    } else if s.att.entries[i].state == Stained {
      if DirtyStained(s, i, !full).Ok? {
        var (u, base) := DirtyStained(s, i, !full).value;
        ResetMark(s.att, g, base, Dirty, u.att, y);
      }
    } else if HideClean(s, i, !full).Ok? {
      ResetMark(s.att, g, g, Hidden, HideClean(s, i, !full).value.att, y);
    }
  }

  lemma MissMark(s: State, g: nat, full: bool, y: nat)
    requires TableOk(s.att) && Quiet(s) && g !in s.att.index
    ensures var r := if s.ckpt then NvmMissCkpt(s, g, full) else NvmMissRunning(s, g, full);
      r.Ok? ==>
        var b := r.value.0.att;
        && TableOk(b) && g in b.index && b.index[g] == r.value.1
        && (y == g ==> MarkOf(b, y) == Mark(StoredState(s.ckpt, Free), 0))
        && (y != g ==> Spared(s, MarkOf(s.att, y), MarkOf(b, y)))
  {
    if s.ckpt {
      if NvmMissCkpt(s, g, full).Ok? {
        EvictCleanMark(s, y);
        var s1 := EvictClean(s).value;
        var (dram, base) := VersionBuffers.Alloc(s1.dram).value;
        InsertMark(s1.att, g, base, Stained, y);
      }
    } else if NvmMissRunning(s, g, full).Ok? {
      EvictAnyMark(s, y);
      var s1 := EvictAny(s).value;
      var (nvm, base) := VersionBuffers.Alloc(s1.nvm).value;
      InsertMark(s1.att, g, base, Dirty, y);
    }
  }

  /** What a store to block `x`, in NVM, does to the entry of `y`. */
  ghost predicate NvmMarked(s: State, t: State, x: nat, y: nat) {
    var a, b := MarkOf(s.att, y), MarkOf(t.att, y);
    if y == x then b == Mark(StoredState(s.ckpt, a.state), a.writes + 1)
    else if x in s.att.index then b == a else Spared(s, a, b)
  }

  /** And one in DRAM: while checkpointing the block is on loan, while running it has no entry. */
  ghost predicate DramMarked(s: State, t: State, x: nat, y: nat) {
    var a, b := MarkOf(s.att, y), MarkOf(t.att, y);
    if y == x then b == Mark(if s.ckpt then Loan else Free, 0)
    else if x in s.att.index || !s.ckpt then b == a else Spared(s, a, b)
  }

  /** Looking a block up changes no entry. */
  lemma LookupMark(s: State, x: nat)
    requires TableOk(s.att) && Quiet(s) && Lookup(s.att, x).Ok?
    ensures var m := s.(att := Lookup(s.att, x).value.0);
      TableOk(m.att) && Quiet(m) && (NoneFree(m.att) <==> NoneFree(s.att)) && VictimState(m) == VictimState(s)
  {
    LookupOk(s.att, x);
    var m := s.(att := Lookup(s.att, x).value.0);
    forall j ensures QuietAt(m, j) {
      assert QuietAt(s, j);
    }
    SameEmpty(s.att, m.att, 1);
    SameEmpty(s.att, m.att, 2);
  }

  lemma SameEmpty(a: Table, b: Table, c: nat)
    requires TableOk(a) && TableOk(b) && a.entries == b.entries && c < 4
    ensures a.queues[c] == [] <==> b.queues[c] == []
  {
    var q, r, e := a.queues[c], b.queues[c], EntriesIn(a.entries, c);
    assert Listing(q, e) && Listing(r, e);
    if q != [] {
      assert q[0] in e;
    }
    if r != [] {
      assert r[0] in e;
    }
  }

  lemma NvmStoreMark(s: State, x: nat, full: bool, t: State, to: nat, y: nat)
    requires TableOk(s.att) && Quiet(s) && NvmStore(s, x, full) == Ok((t, to))
    ensures NvmMarked(s, t, x, y)
  {
    LookupMark(s, x);
    var (att, hit) := Lookup(s.att, x).value;
    var m := s.(att := att);
    if hit.Some? {
      HitMark(Hit(m), x, full, y);
      var r := if s.ckpt then NvmHitCkpt(Hit(m), hit.value, full) else NvmHitRunning(Hit(m), hit.value, x, full);
      CountMark(r.value.0.att, x, y);
    } else {
      MissMark(m, x, full, y);
      var r := if s.ckpt then NvmMissCkpt(m, x, full) else NvmMissRunning(m, x, full);
      CountMark(r.value.0.att, x, y);
    }
  }

  lemma DramStoreMark(s: State, x: nat, full: bool, t: State, to: nat, y: nat)
    requires TableOk(s.att) && Quiet(s) && DramStore(s, x, full) == Ok((t, to))
    requires x in s.att.index ==> MarkOf(s.att, x) == Mark(Loan, 0)
    ensures DramMarked(s, t, x, y)
  {
    LookupMark(s, x);
    var (att, hit) := Lookup(s.att, x).value;
    var m := s.(att := att);
    if hit.Some? {
      assert TagOk(s.att, x);
      if !s.ckpt {
        FreeMark(att, hit.value, t.att, y);
      }
    } else if s.ckpt {
      EvictCleanMark(m, y);
      var s2 := EvictClean(m).value;
      var (dram, base) := VersionBuffers.Alloc(s2.dram).value;
      InsertMark(s2.att, x, base, Loan, y);
    }
  }

  // ----- begin -----

  lemma {:induction false} SurvivingIs(es: seq<Entry>, q: seq<nat>, i: nat)
    ensures i in Surviving(es, q) <==> i in q && i < |es| && Survives(es[i])
    decreases |q|
  {
    if q != [] {
      SurvivingIs(es, q[1..], i);
      assert i in q <==> i == q[0] || i in q[1..];
    }
  }

  /** A begin cleans what was dirty or stained, and drops what was hidden or temporary. */
  function BegunState(st: EntryState): EntryState {
    if st == Clean || st == Dirty || st == Stained then Clean else Free
  }

  lemma FlushedMark(a: Table, b: Table, y: nat)
    requires TableOk(a) && Queue(a, Loan) == [] && Flushed(a, b) && |b.entries| == |a.entries|
    ensures MarkOf(b, y).state == BegunState(MarkOf(a, y).state)
  {
    assert TagOk(a, y) && TagOk(b, y);
    assert forall c :: 0 <= c < 4 ==> Listing(a.queues[c], EntriesIn(a.entries, c)) && Listing(b.queues[c], EntriesIn(b.entries, c));
    if y in a.index {
      var i := a.index[y];
      SurvivingIs(a.entries, Queue(a, Dirty), i);
      if BegunState(a.entries[i].state) == Clean {
        assert i in b.queues[0];
        assert Indexed(b, i);
        TagsApart(a, y, b.entries[i].tag);
      }
    }
  }
}
