/** What MigratePages does to the page table, in terms of the entries and pages before the call: which
    pages come in, which leave, and which stay. */
module Rebalancing {
  import opened Outcomes
  import opened Lists
  import opened TranslationTables
  import opened PageTables
  import opened PageTableInvariants
  import opened Controllers
  import opened ControllerInvariants
  import opened Stores
  import opened Migration
  import opened Selection

  // ----- the pages before the call -----

  /** The blocks of page `g` that were written this epoch and have an entry. */
  ghost function DirtyBlocks(s: State, g: nat): nat {
    |WrittenBlocks(s.att.entries, |s.att.entries|, g, s.ptt.pageBlocks)|
  }

  /** Page `g` is in NVM and has an entry in use. */
  ghost predicate Waits(s: State, g: nat) {
    g !in s.ptt.pages && g in ActivePages(s.att.entries, |s.att.entries|, s.ptt.pageBlocks)
  }

  /** The ratio of its blocks that were written. */
  ghost function DirtyRatio(s: State, g: nat): real {
    DirtyBlocks(s, g) as real / s.ptt.pageBlocks as real
  }

  /** The ratio of its writes to its blocks. */
  ghost function WriteRatio(s: State, g: nat): real
    requires g in s.ptt.pages
  {
    s.ptt.pages[g].epochWrites as real / s.ptt.pageBlocks as real
  }

  // ----- the change -----

  ghost predicate ComesIn(s: State, t: State, g: nat) {
    g !in s.ptt.pages && g in t.ptt.pages
  }

  ghost predicate GoesOut(s: State, t: State, g: nat) {
    g in s.ptt.pages && g !in t.ptt.pages
  }

  ghost predicate Stays(s: State, t: State, g: nat) {
    g in s.ptt.pages && g in t.ptt.pages
  }

  /** The page table was full before the pages that were returned left it. */
  ghost predicate WasFull(s: State, t: State) {
    |t.ptt.pages| + (t.toNvm - s.toNvm) == t.ptt.capacity
  }

  /** A page that comes in was written enough. It is unwritten then, and static if and only if more than
      half of its blocks were written. */
  ghost predicate InFits(s: State, t: State, dr: real) {
    forall g :: ComesIn(s, t, g) ==>
      && Waits(s, g) && DirtyRatio(s, g) >= dr && t.ptt.pages[g].epochReads == t.ptt.pages[g].epochWrites == 0
      && t.ptt.pages[g].state == (if DirtyRatio(s, g) > 0.5 then CleanStatic else CleanDirect)
  }

  /** Those written in more blocks come in first. */
  ghost predicate InOrderly(s: State, t: State) {
    forall g, h :: ComesIn(s, t, g) && Waits(s, h) && h !in t.ptt.pages ==> DirtyBlocks(s, h) <= DirtyBlocks(s, g)
  }

  /** All that were written enough come in, unless the table is full and every page in it has been written. */
  ghost predicate InComplete(s: State, t: State, dr: real) {
    forall h :: Waits(s, h) && h !in t.ptt.pages && DirtyRatio(s, h) >= dr ==>
      WasFull(s, t) && forall g :: Stays(s, t, g) ==> s.ptt.pages[g].epochWrites > 0
  }

  /** A page that goes out was not written, and made room in a full table, or it was not written too much. */
  ghost predicate OutFits(s: State, t: State, wr: real) {
    forall g :: GoesOut(s, t, g) ==> if s.ptt.pages[g].epochWrites == 0 then WasFull(s, t) else WriteRatio(s, g) <= wr
  }

  /** Among the unwritten, and among the written, direct pages go out before static ones and of either those
      with fewer writes first. */
  ghost predicate OutOrderly(s: State, t: State) {
    forall g, h :: GoesOut(s, t, g) && Stays(s, t, h) ==>
      var e, f := s.ptt.pages[g], s.ptt.pages[h];
      (e.epochWrites == 0 <==> f.epochWrites == 0) ==>
        (IsDirect(f.state) ==> IsDirect(e.state)) && (e.state == f.state ==> e.epochWrites <= f.epochWrites)
  }

  /** As many written pages go out as the spare capacity, or all that were not written too much but for
      static ones kept back by a direct one that was. */
  ghost predicate OutComplete(s: State, t: State, wr: real) {
    || t.toNvm - s.toNvm == s.ptt.capacity - s.ptt.length
    || forall h :: Stays(s, t, h) && s.ptt.pages[h].epochWrites > 0 && WriteRatio(s, h) <= wr ==>
         !IsDirect(s.ptt.pages[h].state) && KeptBack(s, t, wr)
  }

  ghost predicate KeptBack(s: State, t: State, wr: real) {
    exists g :: Stays(s, t, g) && WriteRatio(s, g) > wr && IsDirect(s.ptt.pages[g].state)
  }

  /** The pages that come in, and the written pages that go out, are counted. */
  ghost predicate MovesCounted(s: State, t: State) {
    && t.toDram == s.toDram + |t.ptt.pages.Keys - s.ptt.pages.Keys|
    && t.toNvm == s.toNvm + |WrittenLeft(s.ptt, t.ptt)|
  }

  /** What MigratePages does to the pages. */
  ghost predicate Rebalanced(s: State, t: State, dr: real, wr: real) {
    && InFits(s, t, dr) && InOrderly(s, t) && InComplete(s, t, dr)
    && OutFits(s, t, wr) && OutOrderly(s, t) && OutComplete(s, t, wr)
    && MovesCounted(s, t) && forall g :: Stays(s, t, g) ==> t.ptt.pages[g] == s.ptt.pages[g]
  }

  // ----- the heaps mirror the pages -----

  ghost predicate Mirrors(s: State, p: Ptt) {
    && Ready(p) && p.pages == s.ptt.pages && SameSizes(s.ptt, p)
    && (forall e :: e in p.nvmHeap ==> Waits(s, e.page) && e.dirtyBlocks == DirtyBlocks(s, e.page))
    && (forall g :: Waits(s, g) ==> InNvmHeap(p, g)) && (forall g :: g in p.pages ==> InDramHeap(p, g))
  }

  lemma DramElement(p: Ptt, g: nat) returns (d: DramStats)
    requires Ready(p) && InDramHeap(p, g)
    ensures d in p.dramHeap && d == DramStats(g, p.pages[g].state, p.pages[g].epochWrites)
  {
    d :| d in p.dramHeap && d.page == g;
    assert Describes(p, d);
  }

  lemma NvmElement(s: State, p: Ptt, g: nat) returns (e: NvmStats)
    requires Mirrors(s, p) && InNvmHeap(p, g)
    ensures e in p.nvmHeap && e.page == g && e.dirtyBlocks == DirtyBlocks(s, g)
  {
    e :| e in p.nvmHeap && e.page == g;
  }

  /** Thresholds on counts are thresholds on ratios. */
  lemma Ratios(s: State, dr: real, wr: real)
    ensures forall g :: DirtyRatio(s, g) >= dr <==> CountFrom(dr, s.ptt.pageBlocks) <= DirtyBlocks(s, g)
    ensures forall g :: DirtyRatio(s, g) > 0.5 <==> 2 * DirtyBlocks(s, g) > s.ptt.pageBlocks
    ensures forall g :: g in s.ptt.pages ==>
      (WriteRatio(s, g) > wr <==> s.ptt.pages[g].epochWrites > CountUpTo(wr, s.ptt.pageBlocks))
  {
    var k := s.ptt.pageBlocks;
    forall g ensures DirtyRatio(s, g) >= dr <==> CountFrom(dr, k) <= DirtyBlocks(s, g)
      ensures DirtyRatio(s, g) > 0.5 <==> 2 * DirtyBlocks(s, g) > k
    {
      RatioCounts(DirtyBlocks(s, g), dr, k);
      HalfRatio(DirtyBlocks(s, g), k);
    }
    forall g | g in s.ptt.pages ensures WriteRatio(s, g) > wr <==> s.ptt.pages[g].epochWrites > CountUpTo(wr, k) {
      RatioCounts(s.ptt.pages[g].epochWrites, wr, k);
    }
  }

  lemma HalfRatio(n: nat, k: Positive)
    ensures n as real / k as real > 0.5 <==> 2 * n > k
  {
    RatioCounts(n, 0.5, k);
    HalfCount(k);
  }

  lemma HalfCount(k: Positive)
    ensures CountUpTo(0.5, k) == k / 2
  {
    var x, h := 0.5 * k as real, k / 2;
    assert k as real == 2.0 * h as real || k as real == 2.0 * h as real + 1.0;
    assert h as real <= x < h as real + 1.0;
    assert x.Floor == h;
  }

  /** A page that is new in `q` comes from the heap, and one that waits is in it. */
  lemma NewIsWaiting(s: State, p: Ptt, q: Ptt, g: nat) returns (e: NvmStats)
    requires Mirrors(s, p) && (Waits(s, g) || (g !in s.ptt.pages && g in q.pages && FromHeap(p, q)))
    ensures e in p.nvmHeap && e.page == g && e.dirtyBlocks == DirtyBlocks(s, g) && Waits(s, g)
  {
    e := NvmElement(s, p, g);
  }

  lemma FitsIn(s: State, p: Ptt, t: State, dr: real, low: int)
    requires Mirrors(s, p) && FromHeap(p, t.ptt) && InEnough(p, t.ptt, low) && low == CountFrom(dr, s.ptt.pageBlocks)
    ensures InFits(s, t, dr)
  {
    Ratios(s, dr, dr);
    forall g | ComesIn(s, t, g)
      ensures && Waits(s, g) && DirtyRatio(s, g) >= dr && t.ptt.pages[g].epochReads == t.ptt.pages[g].epochWrites == 0
              && t.ptt.pages[g].state == (if DirtyRatio(s, g) > 0.5 then CleanStatic else CleanDirect)
    {
      var e := NewIsWaiting(s, p, t.ptt, g);
    }
  }

  lemma OrderlyIn(s: State, p: Ptt, t: State)
    requires Mirrors(s, p) && FromHeap(p, t.ptt) && InBest(p, t.ptt)
    ensures InOrderly(s, t)
  {
    forall g, h | ComesIn(s, t, g) && Waits(s, h) && h !in t.ptt.pages ensures DirtyBlocks(s, h) <= DirtyBlocks(s, g) {
      var e := NewIsWaiting(s, p, t.ptt, g);
      var f := NewIsWaiting(s, p, t.ptt, h);
    }
  }

  lemma CompleteIn(s: State, p: Ptt, t: State, dr: real, low: int)
    requires Mirrors(s, p) && WaitsFull(p, t.ptt, t.toNvm - s.toNvm, low) && low == CountFrom(dr, s.ptt.pageBlocks)
    ensures InComplete(s, t, dr)
  {
    Ratios(s, dr, dr);
    forall h | Waits(s, h) && h !in t.ptt.pages && DirtyRatio(s, h) >= dr
      ensures WasFull(s, t) && forall g :: Stays(s, t, g) ==> s.ptt.pages[g].epochWrites > 0
    {
      var f := NewIsWaiting(s, p, t.ptt, h);
      forall g | Stays(s, t, g) ensures s.ptt.pages[g].epochWrites > 0 {
        var d := DramElement(p, g);
      }
    }
  }

  lemma FitsOut(s: State, p: Ptt, t: State, wr: real, high: int)
    requires Mirrors(s, p) && LeftFor(p, t.ptt, t.toNvm - s.toNvm, high) && high == CountUpTo(wr, s.ptt.pageBlocks)
    ensures OutFits(s, t, wr)
  {
    Ratios(s, wr, wr);
    forall g | GoesOut(s, t, g)
      ensures if s.ptt.pages[g].epochWrites == 0 then WasFull(s, t) else WriteRatio(s, g) <= wr
    {
      var d := DramElement(p, g);
    }
  }

  lemma OrderlyOut(s: State, p: Ptt, t: State)
    requires Mirrors(s, p) && LeftFirst(p, t.ptt)
    ensures OutOrderly(s, t)
  {
    forall g, h | GoesOut(s, t, g) && Stays(s, t, h)
      ensures var e, f := s.ptt.pages[g], s.ptt.pages[h];
        (e.epochWrites == 0 <==> f.epochWrites == 0) ==>
          (IsDirect(f.state) ==> IsDirect(e.state)) && (e.state == f.state ==> e.epochWrites <= f.epochWrites)
    {
      var d := DramElement(p, g);
      var e := DramElement(p, h);
      assert d.page == g && e.page == h;
    }
  }

  lemma CompleteOut(s: State, p: Ptt, t: State, wr: real, high: int)
    requires Mirrors(s, p) && high == CountUpTo(wr, s.ptt.pageBlocks) && BackAll(p.dramHeap, t.ptt, high)
    ensures OutComplete(s, t, wr)
  {
    Ratios(s, wr, wr);
    forall h | Stays(s, t, h) && s.ptt.pages[h].epochWrites > 0 && WriteRatio(s, h) <= wr
      ensures !IsDirect(s.ptt.pages[h].state) && KeptBack(s, t, wr)
    {
      var f := DramElement(p, h);
      assert f.page == h;
      assert Blocked(p.dramHeap, t.ptt, high);
      var e :| e in p.dramHeap && e.page in t.ptt.pages && e.writes > high && IsDirect(e.state);
      assert Describes(p, e);
      assert Stays(s, t, e.page);
    }
  }

  lemma UnchangedStay(s: State, p: Ptt, t: State, g: nat)
    requires Mirrors(s, p) && FromHeap(p, t.ptt) && Stays(s, t, g)
    ensures t.ptt.pages[g] == s.ptt.pages[g]
  {
    if InNvmHeap(p, g) {
      var e := NvmElement(s, p, g);
    }
  }

  lemma {:induction false} SelectedRebalances(s: State, p: Ptt, t: State, dr: real, wr: real, low: int, high: int)
    requires Mirrors(s, p) && Selected(p, t.ptt, t.toNvm - s.toNvm, low, high) && t.toDram == s.toDram + |Arrivals(p, t.ptt)|
    requires low == CountFrom(dr, s.ptt.pageBlocks) && high == CountUpTo(wr, s.ptt.pageBlocks)
    ensures Rebalanced(s, t, dr, wr)
  {
    FitsIn(s, p, t, dr, low);
    OrderlyIn(s, p, t);
    CompleteIn(s, p, t, dr, low);
    FitsOut(s, p, t, wr, high);
    OrderlyOut(s, p, t);
    if BackAll(p.dramHeap, t.ptt, high) {
      CompleteOut(s, p, t, wr, high);
    }
    forall g | Stays(s, t, g) ensures t.ptt.pages[g] == s.ptt.pages[g] {
      UnchangedStay(s, p, t, g);
    }
    assert WrittenLeft(s.ptt, t.ptt) == WrittenLeft(p, t.ptt);
  }

  // ----- filling the heaps -----

  lemma {:induction false} RevokedEntries(s: State, q: seq<nat>)
    requires NoDup(q) && RevokeLoans(s, q).Ok?
    ensures var t := RevokeLoans(s, q).value;
      && |t.att.entries| == |s.att.entries|
      && forall j: nat :: j < |s.att.entries| ==>
           t.att.entries[j] == if j in q then s.att.entries[j].(state := Free) else s.att.entries[j]
    decreases |q|
  {
    if q != [] {
      var m := FreeLoan(s, q[0], true).value;
      assert forall k :: 0 < k < |q| ==> q[k] != q[0];
      assert q[0] !in q[1..];
      RevokedEntries(m, q[1..]);
    }
  }

  /** Revoked loans counted for no page outside DRAM. */
  lemma {:induction false} RevokedCounts(s: State, s1: State, g: nat, i: nat)
    requires Inv(s) && RevokeLoans(s, Queue(s.att, Loan)) == Ok(s1) && g !in s.ptt.pages
    ensures |s1.att.entries| == |s.att.entries|
    ensures CountsFor(s1.att.entries, i, g, s.ptt.pageBlocks) <==> CountsFor(s.att.entries, i, g, s.ptt.pageBlocks)
    ensures CountsFor(s.att.entries, i, g, s.ptt.pageBlocks) ==> s1.att.entries[i] == s.att.entries[i]
  {
    assert Listing(s.att.queues[1], EntriesIn(s.att.entries, 1));
    RevokedEntries(s, Queue(s.att, Loan));
    assert SideOk(s, i);
  }

  lemma {:induction false} RevokedWaits(s: State, s1: State, g: nat)
    requires Inv(s) && RevokeLoans(s, Queue(s.att, Loan)) == Ok(s1) && g !in s.ptt.pages
    ensures var n, k := |s.att.entries|, s.ptt.pageBlocks;
      && |s1.att.entries| == n
      && WrittenBlocks(s1.att.entries, n, g, k) == WrittenBlocks(s.att.entries, n, g, k)
      && (g in ActivePages(s1.att.entries, n, k) <==> g in ActivePages(s.att.entries, n, k))
  {
    var es, fs, n, k := s.att.entries, s1.att.entries, |s.att.entries|, s.ptt.pageBlocks;
    RevokedCounts(s, s1, g, 0);
    forall i: nat | i < n ensures CountsFor(fs, i, g, k) <==> CountsFor(es, i, g, k)
      ensures CountsFor(es, i, g, k) ==> fs[i] == es[i]
    {
      RevokedCounts(s, s1, g, i);
    }
    SameCounts(es, fs, g, k);
  }

  lemma {:induction false} SameCounts(es: seq<Entry>, fs: seq<Entry>, g: nat, k: Positive)
    requires |fs| == |es| && forall i: nat :: i < |es| ==> (CountsFor(fs, i, g, k) <==> CountsFor(es, i, g, k))
    requires forall i: nat :: CountsFor(es, i, g, k) ==> fs[i] == es[i]
    ensures WrittenBlocks(fs, |es|, g, k) == WrittenBlocks(es, |es|, g, k)
    ensures g in ActivePages(fs, |es|, k) <==> g in ActivePages(es, |es|, k)
  {
    ActiveCounts(es, g, k);
    ActiveCounts(fs, g, k);
  }

  lemma {:induction false} ActiveCounts(es: seq<Entry>, g: nat, k: Positive)
    ensures g in ActivePages(es, |es|, k) <==> exists i: nat :: CountsFor(es, i, g, k)
  {
    if g in ActivePages(es, |es|, k) {
      var i :| 0 <= i < |es| && !Settled(es[i]) && PageNumber(es[i].tag, k) == g;
      assert CountsFor(es, i, g, k);
    }
  }

  lemma {:induction false} DramHeapElements(m: map<nat, Page>, order: seq<nat>)
    requires forall g :: g in order ==> g in m
    ensures |DramHeapOf(m, order)| == |order|
    ensures forall j :: 0 <= j < |order| ==> DramHeapOf(m, order)[j] == DramStats(order[j], m[order[j]].state, m[order[j]].epochWrites)
    decreases |order|
  {
    if order != [] {
      DramHeapElements(m, order[..|order| - 1]);
    }
  }

  /** The filled heaps, element by element. */
  lemma {:induction false} FilledReady(p: Ptt, es: seq<Entry>, nvmOrder: seq<nat>, dramOrder: seq<nat>, q: Ptt)
    requires PttOk(q) && q.pages == p.pages
    requires Listing(nvmOrder, ActivePages(es, |es|, p.pageBlocks)) && Listing(dramOrder, p.pages.Keys)
    requires Weighed(q.nvmHeap, nvmOrder, es, p.pageBlocks) && q.dramHeap == DramHeapOf(p.pages, dramOrder)
    requires forall g :: g in nvmOrder ==> g !in p.pages
    ensures Ready(q)
    ensures forall g :: g in ActivePages(es, |es|, p.pageBlocks) ==> InNvmHeap(q, g)
    ensures forall e :: e in q.nvmHeap ==> e.page in ActivePages(es, |es|, p.pageBlocks) && e == Weight(es, e.page, p.pageBlocks)
    ensures forall g :: g in q.pages ==> InDramHeap(q, g)
  {
    DramHeapElements(p.pages, dramOrder);
    forall e | e in q.nvmHeap ensures e.page in nvmOrder && e == Weight(es, e.page, p.pageBlocks) {
      var j :| 0 <= j < |q.nvmHeap| && q.nvmHeap[j] == e;
    }
    forall d | d in q.dramHeap ensures Describes(q, d) {
      var j :| 0 <= j < |q.dramHeap| && q.dramHeap[j] == d;
      assert dramOrder[j] in dramOrder;
    }
    forall g | g in nvmOrder ensures InNvmHeap(q, g) {
      var j :| 0 <= j < |nvmOrder| && nvmOrder[j] == g;
      assert q.nvmHeap[j].page == g;
    }
    forall g | g in q.pages ensures InDramHeap(q, g) {
      var j :| 0 <= j < |dramOrder| && dramOrder[j] == g;
      assert q.dramHeap[j].page == g;
    }
  }

  lemma {:induction false} MirrorsFrom(s: State, s1: State, q: Ptt, nvmOrder: seq<nat>, dramOrder: seq<nat>)
    requires Inv(s) && RevokeLoans(s, Queue(s.att, Loan)) == Ok(s1) && s1.ptt == s.ptt
    requires PttOk(q) && q.pages == s.ptt.pages && SameSizes(s.ptt, q)
    requires Listing(nvmOrder, ActivePages(s1.att.entries, |s1.att.entries|, s.ptt.pageBlocks))
    requires Listing(dramOrder, s.ptt.pages.Keys)
    requires Weighed(q.nvmHeap, nvmOrder, s1.att.entries, s.ptt.pageBlocks)
    requires q.dramHeap == DramHeapOf(s.ptt.pages, dramOrder)
    requires forall g :: g in nvmOrder ==> g !in s.ptt.pages
    ensures Mirrors(s, q)
  {
    FilledReady(s.ptt, s1.att.entries, nvmOrder, dramOrder, q);
    forall g: nat | g !in s.ptt.pages
      ensures && |s1.att.entries| == |s.att.entries|
              && (Waits(s, g) <==> g in ActivePages(s1.att.entries, |s1.att.entries|, s.ptt.pageBlocks))
              && Weight(s1.att.entries, g, s.ptt.pageBlocks).dirtyBlocks == DirtyBlocks(s, g)
    {
      RevokedWaits(s, s1, g);
    }
    forall e | e in q.nvmHeap ensures Waits(s, e.page) && e.dirtyBlocks == DirtyBlocks(s, e.page) {
      assert e.page in nvmOrder;
    }
  }

  /** Filled with the entries and pages before the call, the heaps mirror them. */
  lemma {:induction false} InputMirrors(s: State, nvmOrder: seq<nat>, dramOrder: seq<nat>) returns (s2: State)
    requires Inv(s) && !s.ckpt && Idle(s.ptt) && Quiet(s) && Orders(s, nvmOrder, dramOrder)
    ensures InputYields(s, nvmOrder, dramOrder, s2) && Inv(s2) && NoLoan(s2) && HeapsOk(s2.ptt) && !s2.ckpt
    ensures Mirrors(s, s2.ptt) && s2.toNvm == s.toNvm && s2.toDram == s.toDram
  {
    RevokeAllOk(s);
    var s1 := RevokeLoans(s, Queue(s.att, Loan)).value;
    ThroughCounts(s, s1, s.phyBlocks);
    InputState(s1, nvmOrder, dramOrder);
    QuietSettled(s1);
    InputBlocksOk(s1.ptt, s1.att.entries, nvmOrder, dramOrder);
    s2 := s1.(ptt := InputBlocks(s1.ptt, s1.att.entries, nvmOrder, dramOrder).value);
    RevokedToDram(s, Queue(s.att, Loan));
    MirrorsFrom(s, s1, s2.ptt, nvmOrder, dramOrder);
  }

  lemma {:induction false} RevokedToDram(s: State, q: seq<nat>)
    requires RevokeLoans(s, q).Ok?
    ensures RevokeLoans(s, q).value.toDram == s.toDram && RevokeLoans(s, q).value.toNvm == s.toNvm
    decreases |q|
  {
    if q != [] {
      RevokedToDram(FreeLoan(s, q[0], true).value, q[1..]);
    }
  }

  /** MigratePages rebalances the pages by the two ratios. */
  lemma {:induction false} MigrateRebalances(s: State, dr: real, wr: real, nvmOrder: seq<nat>, dramOrder: seq<nat>)
    returns (t: State)
    requires Inv(s) && !s.ckpt && Idle(s.ptt) && Quiet(s) && Orders(s, nvmOrder, dramOrder)
    ensures MigrateYields(s, dr, wr, nvmOrder, dramOrder, t) && Rebalanced(s, t, dr, wr)
  {
    var low, high := CountFrom(dr, s.ptt.pageBlocks), CountUpTo(wr, s.ptt.pageBlocks);
    var s2 := InputMirrors(s, nvmOrder, dramOrder);
    t := MigrateLoopsOk(s2, low, high);
    MigrateUnfold(s, s2, t, dr, wr, nvmOrder, dramOrder);
    var m, exit := ExchangeResult(s2, low);
    LoopsSelect(s2, m, exit, t, low, high);
    SelectedRebalances(s, s2.ptt, t, dr, wr, low, high);
  }
}
