/** How every call reorders the queues of the table, by the tags of their entries: a load or a store moves
    its block to the back, a begin appends what it cleans, and nothing else changes the order. */
module Recency {
  import opened Outcomes
  import opened Lists
  import opened TranslationTables
  import opened PageTables
  import opened Controllers
  import opened QueueWalks
  import opened Eviction
  import opened Ordering

  // ----- stores -----

  /** An entry that is retired for another leaves the order of the rest. */
  lemma EvictKeeps(s: State)
    requires TableOk(s.att)
    ensures EvictClean(s).Ok? ==> KeepsOrder(s.att, EvictClean(s).value.att) && EvictClean(s).value.att.index.Keys <= s.att.index.Keys
    ensures EvictAny(s).Ok? ==> KeepsOrder(s.att, EvictAny(s).value.att) && EvictAny(s).value.att.index.Keys <= s.att.index.Keys
  {
    if EvictClean(s).Ok? && Queue(s.att, Free) == [] {
      FreeKeeps(s.att, Queue(s.att, Clean)[0], EvictClean(s).value.att);
    }
    if EvictAny(s).Ok? && Queue(s.att, Free) == [] {
      var st := VictimAny(s);
      FreeKeeps(s.att, Queue(s.att, st)[0], EvictAny(s).value.att);
    }
  }

  function VictimAny(s: State): EntryState
    requires |s.att.queues| == 4
  {
    if Queue(s.att, Loan) != [] then Loan else Clean
  }

  lemma SetupMoves(s: State, g: nat, base: nat, st: EntryState, move: bool)
    requires TableOk(s.att) && Controllers.Setup(s, g, base, st, move).Ok?
    ensures MovesLast(s.att, Controllers.Setup(s, g, base, st, move).value.0.att, g)
  {
    InsertMoves(s.att, g, base, st);
  }

  lemma DramStoreMoves(s: State, g: nat, full: bool)
    requires TableOk(s.att) && DramStore(s, g, full).Ok?
    ensures MovesLast(s.att, DramStore(s, g, full).value.0.att, g)
  {
    LookupMoves(s.att, g);
    var (att, hit) := Lookup(s.att, g).value;
    var s1, t := s.(att := att), DramStore(s, g, full).value.0;
    if hit.Some? {
      if !s.ckpt {
        FreeKeeps(att, hit.value, t.att);
        MovesKeeps(s.att, att, t.att, g);
      }
    } else if s.ckpt {
      EvictKeeps(s1);
      var s2 := EvictClean(s1).value;
      var (dram, base) := VersionBuffers.Alloc(s2.dram).value;
      SetupMoves(s2.(dram := dram), g, base, Loan, !full);
      KeepsMoves(s.att, s2.att, t.att, g);
    }
  }

  /** A hit leaves the table as it is or requeues the entry. */
  lemma HitMoves(s: State, g: nat, full: bool)
    requires TableOk(s.att) && g in s.att.index
    ensures var r := if s.ckpt then NvmHitCkpt(s, s.att.index[g], full) else NvmHitRunning(s, s.att.index[g], g, full);
      r.Ok? ==> var b := r.value.0.att; (b == s.att || MovesLast(s.att, b, g)) && b.index == s.att.index && TableOk(b)
  {
    var i := s.att.index[g];
    assert TagOk(s.att, g);
    if s.ckpt {
      if ResetClean(s, i, !full).Ok? {
        var (u, base) := ResetClean(s, i, !full).value;
        ResetMoves(s.att, g, base, Temp, u.att);
      }
    } else if s.att.entries[i].state == Temp {
      if HideTemp(s, i, !full).Ok? {
        ResetMoves(s.att, g, g, Hidden, HideTemp(s, i, !full).value.att);
      }
    } else if s.att.entries[i].state == Stained {
      if DirtyStained(s, i, !full).Ok? {
        var (u, base) := DirtyStained(s, i, !full).value;
        ResetMoves(s.att, g, base, Dirty, u.att);
      }
    } else if HideClean(s, i, !full).Ok? {
      ResetMoves(s.att, g, g, Hidden, HideClean(s, i, !full).value.att);
    }
  }

  lemma CountWriteKeeps(t: Table, i: nat)
    requires TableOk(t) && AddWrite(t, i).Ok?
    ensures KeepsOrder(t, AddWrite(t, i).value)
  {
    CountsKeep(t, AddWrite(t, i).value.entries);
  }

  lemma MissMoves(s: State, g: nat, full: bool)
    requires TableOk(s.att) && g !in s.att.index
    ensures var r := if s.ckpt then NvmMissCkpt(s, g, full) else NvmMissRunning(s, g, full);
      r.Ok? ==> MovesLast(s.att, r.value.0.att, g)
  {
    EvictKeeps(s);
    if s.ckpt {
      if NvmMissCkpt(s, g, full).Ok? {
        var s1 := EvictClean(s).value;
        var (dram, base) := VersionBuffers.Alloc(s1.dram).value;
        SetupMoves(s1.(dram := dram), g, base, Stained, !full);
        KeepsMoves(s.att, s1.att, NvmMissCkpt(s, g, full).value.0.att, g);
      }
    } else if NvmMissRunning(s, g, full).Ok? {
      var s1 := EvictAny(s).value;
      var (nvm, base) := VersionBuffers.Alloc(s1.nvm).value;
      SetupMoves(s1.(nvm := nvm), g, base, Dirty, !full);
      KeepsMoves(s.att, s1.att, NvmMissRunning(s, g, full).value.0.att, g);
    }
  }

  lemma NvmStoreMoves(s: State, g: nat, full: bool)
    requires TableOk(s.att) && NvmStore(s, g, full).Ok?
    ensures MovesLast(s.att, NvmStore(s, g, full).value.0.att, g)
  {
    LookupMoves(s.att, g);
    var (att, hit) := Lookup(s.att, g).value;
    var s1, t := s.(att := att), NvmStore(s, g, full).value.0;
    if hit.Some? {
      HitMoves(Hit(s1), g, full);
      var r := if s.ckpt then NvmHitCkpt(Hit(s1), hit.value, full) else NvmHitRunning(Hit(s1), hit.value, g, full);
      var b := r.value.0.att;
      if b != att {
        MovesTrans(s.att, att, b, g);
      }
      CountWriteKeeps(b, hit.value);
      MovesKeeps(s.att, b, t.att, g);
    } else {
      MissMoves(s1, g, full);
      var r := if s.ckpt then NvmMissCkpt(s1, g, full) else NvmMissRunning(s1, g, full);
      CountWriteKeeps(r.value.0.att, r.value.1);
      MovesKeeps(s.att, r.value.0.att, t.att, g);
    }
  }

  /** A store puts its block last. */
  lemma StoreMoves(s: State, g: nat, full: bool)
    requires TableOk(s.att) && StoreBlock(s, g, full).Ok?
    ensures MovesLast(s.att, StoreBlock(s, g, full).value.0.att, g)
  {
    var (m, dram) := RouteStore(s, g).value;
    if dram {
      DramStoreMoves(m, g, full);
    } else {
      NvmStoreMoves(m, g, full);
    }
  }

  // ----- migration -----

  lemma LoanKeeps(s: State, i: nat, t: State)
    requires TableOk(s.att) && FreeLoan(s, i, true) == Ok(t)
    ensures KeepsOrder(s.att, t.att)
  {
    FreeKeeps(s.att, i, t.att);
  }

  lemma {:induction false} RevokeKeeps(s: State, q: seq<nat>)
    requires TableOk(s.att) && RevokeLoans(s, q).Ok?
    ensures KeepsOrder(s.att, RevokeLoans(s, q).value.att)
    decreases |q|
  {
    if q != [] {
      var m := FreeLoan(s, q[0], true).value;
      LoanKeeps(s, q[0], m);
      RevokeKeeps(m, q[1..]);
      KeepsTrans(s.att, m.att, RevokeLoans(s, q).value.att);
    }
  }

  lemma SendHomeFrees(s: State, i: nat, t: State)
    requires SendHome(s, i) == Ok(t)
    ensures i < |s.att.entries| && s.att.entries[i].state != Free && ShiftState(s.att, i, Free) == Ok(t.att)
  {
  }

  /** The lookup moves the entry, but then it goes. */
  lemma EvictBlockKeeps(s: State, g: nat, t: State)
    requires TableOk(s.att) && EvictBlock(s, g) == Ok(t)
    ensures KeepsOrder(s.att, t.att)
  {
    LookupMoves(s.att, g);
    var (att, hit) := Lookup(s.att, g).value;
    if hit.Some? {
      assert TagOk(s.att, g);
      SendHomeFrees(s.(att := att), hit.value, t);
      FreeKeeps(att, hit.value, t.att);
      MovesKeeps(s.att, att, t.att, g);
    }
  }

  lemma {:induction false} EvictBlocksKeeps(s: State, g: nat, left: nat)
    requires TableOk(s.att) && EvictBlocks(s, g, left).Ok?
    ensures KeepsOrder(s.att, EvictBlocks(s, g, left).value.att)
    decreases left
  {
    if left != 0 {
      var m := EvictBlock(s, g).value;
      EvictBlockKeeps(s, g, m);
      EvictBlocksKeeps(m, g + 1, left - 1);
      KeepsTrans(s.att, m.att, EvictBlocks(s, g, left).value.att);
    }
  }

  lemma MigrateNvmKeeps(s: State, n: NvmStats, t: State)
    requires TableOk(s.att) && MigrateNvm(s, n) == Ok(t)
    ensures KeepsOrder(s.att, t.att)
  {
    EvictBlocksKeeps(s, FirstBlock(n.page, s.ptt.pageBlocks), s.ptt.pageBlocks);
  }

  lemma {:induction false} ExchangeKeeps(s: State, dirtyMin: int)
    requires TableOk(s.att) && ExchangePages(s, dirtyMin).Ok?
    ensures KeepsOrder(s.att, ExchangePages(s, dirtyMin).value.0.att)
    decreases |s.ptt.nvmHeap|
  {
    var x := ExtractNvm(s.ptt).value;
    if x.Some? && x.value.1.dirtyBlocks >= dirtyMin {
      var (ptt, n) := x.value;
      var s1 := s.(ptt := ptt);
      var y := if |ptt.pages| == ptt.capacity then ExtractDram(ptt).value else None;
      if |ptt.pages| != ptt.capacity {
        ExchangeTurn(s, s1, n, dirtyMin);
      } else if y.Some? && y.value.1.writes == 0 {
        ExchangeTurn(s, MigrateDram(s1.(ptt := y.value.0), y.value.1).value, n, dirtyMin);
      }
    }
  }

  /** One page has come in, and the loop goes on. */
  lemma {:induction false} ExchangeTurn(s: State, m: State, n: NvmStats, dirtyMin: int)
    requires TableOk(s.att) && m.att == s.att && MigrateNvm(m, n).Ok?
    requires var t := MigrateNvm(m, n).value;
      |t.ptt.nvmHeap| < |s.ptt.nvmHeap| && ExchangePages(t, dirtyMin).Ok? && ExchangePages(s, dirtyMin) == ExchangePages(t, dirtyMin)
    ensures KeepsOrder(s.att, ExchangePages(s, dirtyMin).value.0.att)
    decreases |s.ptt.nvmHeap|, 0
  {
    var t := MigrateNvm(m, n).value;
    MigrateNvmKeeps(m, n, t);
    ExchangeKeeps(t, dirtyMin);
    KeepsTrans(s.att, t.att, ExchangePages(s, dirtyMin).value.0.att);
  }

  lemma {:induction false} LoopsKeep(s: State, dirtyMin: int, writeMax: int)
    requires TableOk(s.att) && MigrateLoops(s, dirtyMin, writeMax).Ok?
    ensures KeepsOrder(s.att, MigrateLoops(s, dirtyMin, writeMax).value.att)
  {
    ExchangeKeeps(s, dirtyMin);
    var (m, exit) := ExchangePages(s, dirtyMin).value;
    AfterKeeps(m, exit, m.ptt.capacity - m.ptt.length, writeMax);
  }

  lemma AfterKeeps(m: State, exit: Exit, limit: int, writeMax: int)
    requires AfterExchange(m, exit, limit, writeMax).Ok?
    ensures AfterExchange(m, exit, limit, writeMax).value.att == m.att
  {
    if exit.Proceed? {
      if exit.ready.Some? {
        ReturnKeeps(m, exit.ready.value, limit, writeMax);
      } else {
        var y := ExtractDram(m.ptt).value;
        if y.Some? {
          ReturnKeeps(m.(ptt := y.value.0), y.value.1, limit, writeMax);
        }
      }
    }
  }

  // ----- begin -----

  /** The flush keeps the entry, as a clean one. */
  predicate Survives(e: Entry) {
    e.state == Dirty || e.state == Stained
  }

  /** The entries of `q` that survive the flush. */
  function Surviving(es: seq<Entry>, q: seq<nat>): seq<nat>
    decreases |q|
  {
    if q == [] then []
    else (if q[0] < |es| && Survives(es[q[0]]) then [q[0]] else []) + Surviving(es, q[1..])
  }

  lemma {:induction false} SurvivingOrder(es: seq<Entry>, q: seq<nat>, i: nat, j: nat)
    ensures i in Surviving(es, q) ==> i in q
    ensures InOrder(Surviving(es, q), i, j) ==> InOrder(q, i, j)
    decreases |q|
  {
    if q != [] {
      SurvivingOrder(es, q[1..], i, j);
      SurvivingOrder(es, q[1..], j, i);
      var w, v := Surviving(es, q), Surviving(es, q[1..]);
      if InOrder(w, i, j) {
        var k, l :| 0 <= k < l < |w| && w[k] == i && w[l] == j;
        if w == v {
          InOrderTail(q, i, j);
        } else if k == 0 {
          assert v[l - 1] == j;
          var n :| 0 <= n < |q[1..]| && q[1..][n] == j;
          assert q[0] == i && q[n + 1] == j;
        } else {
          assert v[k - 1] == i && v[l - 1] == j;
          InOrderTail(q, i, j);
        }
      }
    }
  }

  lemma InOrderTail(q: seq<nat>, i: nat, j: nat)
    requires q != [] && InOrder(q[1..], i, j)
    ensures InOrder(q, i, j)
  {
    var k, l :| 0 <= k < l < |q[1..]| && q[1..][k] == i && q[1..][l] == j;
    assert q[k + 1] == i && q[l + 1] == j;
  }

  /** What one visit does to the table: the entry goes to the clean queue or goes altogether. */
  ghost predicate Cleansed(a: Table, i: nat, b: Table) {
    && TableOk(b) && i < |a.entries| && |b.entries| == |a.entries| && |a.queues| == 4 && Queue(a, Dirty) != []
    && Queue(b, Dirty) == Queue(a, Dirty)[1..] && Queue(b, Loan) == Queue(a, Loan)
    && Queue(b, Clean) == Queue(a, Clean) + (if Survives(a.entries[i]) then [i] else [])
    && (forall j :: 0 <= j < |a.entries| && j != i ==> b.entries[j] == a.entries[j])
    && (forall x :: x in b.index ==> x in a.index && a.index[x] == b.index[x])
  }

  lemma ShiftCleanses(a: Table, i: nat, st: EntryState, b: Table)
    requires TableOk(a) && Queue(a, Dirty) != [] && i == Queue(a, Dirty)[0] && i < |a.entries|
    requires StateIndex(a.entries[i].state) == 3 && (st == Clean || st == Free) && ShiftState(a, i, st) == Ok(b)
    requires Survives(a.entries[i]) <==> st == Clean
    ensures Cleansed(a, i, b)
  {
    ShiftStateOk(a, i, st);
    HeadLeaves(a, i, st);
  }

  lemma ResetCleanses(a: Table, i: nat, base: nat, mid: EntryState, m: Table, st: EntryState, b: Table)
    requires TableOk(a) && Queue(a, Dirty) != [] && i == Queue(a, Dirty)[0] && i < |a.entries|
    requires StateIndex(a.entries[i].state) == StateIndex(mid) == 3 && (st == Clean || st == Free)
    requires Reset(a, i, base, mid) == Ok(m) && ShiftState(m, i, st) == Ok(b)
    requires Survives(a.entries[i]) <==> st == Clean
    ensures Cleansed(a, i, b)
  {
    ResetOk(a, i, base, mid);
    ShiftStateOk(m, i, st);
    HeadCycles(a, i, base, mid, st);
  }

  lemma CleanEntryCleanses(s: State, i: nat)
    requires TableOk(s.att) && Queue(s.att, Dirty) != [] && i == Queue(s.att, Dirty)[0] && CleanEntry(s, i).Ok?
    ensures Cleansed(s.att, i, CleanEntry(s, i).value.att)
  {
    assert Listing(s.att.queues[3], EntriesIn(s.att.entries, 3));
    var e, t := s.att.entries[i], CleanEntry(s, i).value;
    match e.state {
      case Stained =>
        var (m, base) := DirtyStained(s, i, true).value;
        ResetCleanses(s.att, i, base, Dirty, m.att, Clean, t.att);
      case Temp =>
        var m := HideTemp(s, i, true).value;
        ResetCleanses(s.att, i, e.tag, Hidden, m.att, Free, t.att);
      case Dirty =>
        ShiftCleanses(s.att, i, Clean, t.att);
      case Hidden =>
        ShiftCleanses(s.att, i, Free, t.att);
      case _ =>
    }
  }

  lemma {:induction false} SurvivingSame(es: seq<Entry>, fs: seq<Entry>, q: seq<nat>)
    requires |fs| == |es| && forall j :: j in q && j < |es| ==> fs[j] == es[j]
    ensures Surviving(fs, q) == Surviving(es, q)
    decreases |q|
  {
    if q != [] {
      SurvivingSame(es, fs, q[1..]);
    }
  }

  lemma {:induction false} SurvivingNext(es: seq<Entry>, q: seq<nat>, p: seq<nat>)
    requires q != [] && q[0] < |es|
    ensures p + Surviving(es, q) == p + (if Survives(es[q[0]]) then [q[0]] else []) + Surviving(es, q[1..])
  {
    var first := if Survives(es[q[0]]) then [q[0]] else [];
    assert Surviving(es, q) == first + Surviving(es, q[1..]);
    Associative(p, first, Surviving(es, q[1..]));
  }

  lemma Associative(p: seq<nat>, q: seq<nat>, r: seq<nat>)
    ensures p + (q + r) == p + q + r
  {
  }

  /** What the whole flush does to the order of the table. */
  ghost predicate Flushed(a: Table, b: Table) {
    && TableOk(b) && |a.queues| == 4 && Queue(b, Dirty) == [] && Queue(b, Loan) == Queue(a, Loan)
    && Queue(b, Clean) == Queue(a, Clean) + Surviving(a.entries, Queue(a, Dirty))
    && (forall x :: x in b.index ==> x in a.index && a.index[x] == b.index[x])
  }

  lemma {:induction false} FlushOrder(s: State)
    requires TableOk(s.att) && CleanEntries(s, Queue(s.att, Dirty)).Ok?
    ensures Flushed(s.att, CleanEntries(s, Queue(s.att, Dirty)).value.att)
    decreases |Queue(s.att, Dirty)|
  {
    var q := Queue(s.att, Dirty);
    if q != [] {
      CleanEntryCleanses(s, q[0]);
      var m := CleanEntry(s, q[0]).value;
      FlushOrder(m);
      assert Listing(q, EntriesIn(s.att.entries, 3));
      FlushMore(s.att, m.att, CleanEntries(m, q[1..]).value.att);
    }
  }

  lemma {:induction false} FlushMore(a: Table, m: Table, b: Table)
    requires TableOk(a) && Queue(a, Dirty) != [] && Cleansed(a, Queue(a, Dirty)[0], m) && Flushed(m, b)
    ensures Flushed(a, b)
  {
    var q := Queue(a, Dirty);
    assert Listing(a.queues[3], EntriesIn(a.entries, 3));
    assert forall k :: 0 < k < |q| ==> q[k] != q[0];
    assert q[0] !in q[1..];
    SurvivingSame(a.entries, m.entries, q[1..]);
    SurvivingNext(a.entries, q, Queue(a, Clean));
  }

  /** The flush queues the entry of `x`. */
  ghost predicate Flushes(t: Table, x: nat) {
    x in t.index && t.index[x] < |t.entries| && StateIndex(t.entries[t.index[x]].state) == 3
  }

  /** After a flush, what it cleaned stands behind what was clean, and in the order it was dirty. */
  lemma {:induction false} FlushedBefore(a: Table, b: Table, x: nat, y: nat)
    requires TableOk(a) && Flushed(a, b) && Before(b, x, y)
    ensures (Flushes(a, y) && !Flushes(a, x)) || ((Flushes(a, x) <==> Flushes(a, y)) && Before(a, x, y))
  {
    var i, j := b.index[x], b.index[y];
    assert TagOk(a, x) && TagOk(a, y) && TagOk(b, x) && TagOk(b, y);
    assert forall c :: 0 <= c < 4 ==> Listing(a.queues[c], EntriesIn(a.entries, c));
    var c :| 0 <= c < 4 && c != 2 && InOrder(b.queues[c], i, j);
    if c == 1 {
      OrderedMembers(a.queues[1], i, j);
      assert InOrder(a.queues[1], i, j);
    } else {
      assert c == 0;
      var p, r := Queue(a, Clean), Surviving(a.entries, Queue(a, Dirty));
      SurvivingOrder(a.entries, Queue(a, Dirty), i, j);
      SurvivingOrder(a.entries, Queue(a, Dirty), j, i);
      InOrderConcat(p, r, i, j);
      if InOrder(p, i, j) {
        OrderedMembers(p, i, j);
        assert InOrder(a.queues[0], i, j);
      } else if InOrder(r, i, j) {
        OrderedMembers(r, i, j);
        assert InOrder(a.queues[3], i, j);
      }
    }
  }

  lemma OrderedMembers(q: seq<nat>, i: nat, j: nat)
    requires InOrder(q, i, j)
    ensures i in q && j in q
  {
  }

  lemma InOrderConcat(p: seq<nat>, r: seq<nat>, i: nat, j: nat)
    requires InOrder(p + r, i, j)
    ensures InOrder(p, i, j) || InOrder(r, i, j) || (i in p && j in r)
  {
    var k, l :| 0 <= k < l < |p + r| && (p + r)[k] == i && (p + r)[l] == j;
    if l < |p| {
      assert p[k] == i && p[l] == j;
    } else if k >= |p| {
      assert r[k - |p|] == i && r[l - |p|] == j;
    } else {
      assert p[k] == i && r[l - |p|] == j;
    }
  }
}
