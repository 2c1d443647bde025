/** Which pages a migration moves: the most written NVM pages come in, unwritten DRAM pages make room for
    them, and the least written DRAM pages go back, in the heaps' orders and as far as the limits allow. */
module Selection {
  import opened Outcomes
  import opened PageTables
  import opened PageTableInvariants
  import opened Controllers
  import opened Migration

  // ----- the heaps -----

  ghost predicate NvmDistinct(h: seq<NvmStats>) {
    forall a, b :: 0 <= a < b < |h| ==> h[a].page != h[b].page
  }

  ghost predicate DramDistinct(h: seq<DramStats>) {
    forall a, b :: 0 <= a < b < |h| ==> h[a].page != h[b].page
  }

  /** `d` describes its page in `p`. */
  ghost predicate Describes(p: Ptt, d: DramStats) {
    d.page in p.pages && p.pages[d.page].state == d.state && p.pages[d.page].epochWrites == d.writes
  }

  /** Each heap names distinct pages: those of the first are not resident, those of the second are, in the
      state and with the writes it says. */
  ghost predicate Ready(p: Ptt) {
    && PttOk(p) && NvmDistinct(p.nvmHeap) && DramDistinct(p.dramHeap)
    && (forall e :: e in p.nvmHeap ==> e.page !in p.pages)
    && (forall d :: d in p.dramHeap ==> Describes(p, d))
  }

  /** `n` is taken out of the first heap, of which it is a maximum. */
  ghost predicate TookNvm(p: Ptt, q: Ptt, n: NvmStats) {
    && q == p.(nvmHeap := q.nvmHeap) && NvmDistinct(q.nvmHeap) && n in p.nvmHeap
    && (forall e :: e in q.nvmHeap <==> e in p.nvmHeap && e != n)
    && (forall e :: e in p.nvmHeap ==> e.dirtyBlocks <= n.dirtyBlocks && (e.page == n.page ==> e == n))
  }

  /** `d` is taken out of the second heap, and goes first of it. */
  ghost predicate TookDram(p: Ptt, q: Ptt, d: DramStats) {
    && q == p.(dramHeap := q.dramHeap) && DramDistinct(q.dramHeap) && d in p.dramHeap
    && (forall e :: e in q.dramHeap <==> e in p.dramHeap && e != d)
    && (forall e :: e in p.dramHeap ==> GoesFirst(d, e) && (e.page == d.page ==> e == d))
  }

  lemma NvmTakes(p: Ptt, q: Ptt, n: NvmStats)
    requires NvmDistinct(p.nvmHeap) && ExtractNvm(p) == Ok(Some((q, n)))
    ensures TookNvm(p, q, n)
  {
    var h := p.nvmHeap;
    var k := NvmFront(h, |h|);
    assert n == h[k] && q.nvmHeap == h[..k] + h[k + 1..];
    forall e | e in h && e != n ensures e in q.nvmHeap {
      var j :| 0 <= j < |h| && h[j] == e;
      assert q.nvmHeap[if j < k then j else j - 1] == e;
    }
  }

  lemma DramTakes(p: Ptt, q: Ptt, d: DramStats)
    requires DramDistinct(p.dramHeap) && ExtractDram(p) == Ok(Some((q, d)))
    ensures TookDram(p, q, d)
  {
    var h := p.dramHeap;
    var k := DramFront(h, |h|);
    assert d == h[k] && q.dramHeap == h[..k] + h[k + 1..];
    forall e | e in h ensures GoesFirst(d, e) {
      var j :| 0 <= j < |h| && h[j] == e;
      HeapOrder(d, e);
    }
    forall e | e in h && e != d ensures e in q.dramHeap {
      var j :| 0 <= j < |h| && h[j] == e;
      assert q.dramHeap[if j < k then j else j - 1] == e;
    }
  }

  // ----- one page in, one page out -----

  lemma {:induction false} EvictKeepsPages(s: State, x: nat, left: nat)
    requires EvictBlocks(s, x, left).Ok?
    ensures var t := EvictBlocks(s, x, left).value; t.ptt == s.ptt && t.toNvm == s.toNvm && t.toDram == s.toDram
    decreases left
  {
    if left != 0 {
      EvictKeepsPage(s, x);
      EvictKeepsPages(EvictBlock(s, x).value, x + 1, left - 1);
    }
  }

  lemma EvictKeepsPage(s: State, x: nat)
    requires EvictBlock(s, x).Ok?
    ensures var t := EvictBlock(s, x).value; t.ptt == s.ptt && t.toNvm == s.toNvm && t.toDram == s.toDram
  {
  }

  /** A page as it arrives in DRAM: clean and unwritten, static if more than half of its blocks were. */
  ghost predicate Arrived(e: Page, n: NvmStats, k: nat) {
    && e.state == (if 2 * n.dirtyBlocks > k then CleanStatic else CleanDirect)
    && e.epochReads == e.epochWrites == 0 && e.base == n.page
  }

  /** The page of `n` has come in. */
  ghost predicate CameIn(p: Ptt, n: NvmStats, q: Ptt) {
    && PttOk(q) && q == p.(pages := q.pages, freeSlots := q.freeSlots)
    && n.page in q.pages && q.pages == p.pages[n.page := q.pages[n.page]]
    && Arrived(q.pages[n.page], n, p.pageBlocks) && |q.pages| == |p.pages| + 1
  }

  /** The page of `d` has left. */
  ghost predicate WentOut(p: Ptt, d: DramStats, q: Ptt) {
    && PttOk(q) && q == p.(pages := q.pages, freeSlots := q.freeSlots, dirty := q.dirty)
    && q.pages == p.pages - {d.page} && |q.pages| == |p.pages| - 1
  }

  lemma NvmMovesIn(s: State, n: NvmStats, t: State)
    requires PttOk(s.ptt) && n.page !in s.ptt.pages && |s.ptt.pages| < s.ptt.capacity && MigrateNvm(s, n) == Ok(t)
    ensures t.toNvm == s.toNvm && t.toDram == s.toDram + 1 && CameIn(s.ptt, n, t.ptt)
  {
    var k := s.ptt.pageBlocks;
    EvictKeepsPages(s, FirstBlock(n.page, k), k);
    var q := SetupPageOk(s.ptt, n.page, if 2 * n.dirtyBlocks > k then CleanStatic else CleanDirect);
  }

  lemma DramMovesOut(s: State, d: DramStats, t: State)
    requires PttOk(s.ptt) && d.page in s.ptt.pages && MigrateDram(s, d) == Ok(t)
    ensures t == s.(ptt := t.ptt) && WentOut(s.ptt, d, t.ptt)
  {
    FreePageOk(s.ptt, d.page);
  }

  // ----- the first loop -----

  /** A page that has come in was written enough, and is as it arrived. */
  ghost predicate InEnough(p: Ptt, q: Ptt, low: int) {
    forall e :: e in p.nvmHeap && e.page in q.pages ==> low <= e.dirtyBlocks && Arrived(q.pages[e.page], e, p.pageBlocks)
  }

  /** No page that waits was written in more blocks than one that has come in. */
  ghost predicate InBest(p: Ptt, q: Ptt) {
    forall e, f :: e in p.nvmHeap && f in p.nvmHeap && e.page in q.pages && f.page !in q.pages ==>
      f.dirtyBlocks <= e.dirtyBlocks
  }

  /** If a page that was written enough still waits, the table is full and all unwritten pages have left. */
  ghost predicate InAll(p: Ptt, q: Ptt, low: int) {
    forall f :: f in p.nvmHeap && f.page !in q.pages && low <= f.dirtyBlocks ==>
      |q.pages| == q.capacity && forall d :: d in p.dramHeap && d.page in q.pages ==> d.writes > 0
  }

  /** Only unwritten pages have left, and only for others. */
  ghost predicate OutUnwritten(p: Ptt, q: Ptt) {
    forall d :: d in p.dramHeap && d.page !in q.pages ==> d.writes == 0 && |q.pages| == q.capacity
  }

  ghost predicate OutFirst(p: Ptt, q: Ptt) {
    forall d, e :: d in p.dramHeap && e in p.dramHeap && d.page !in q.pages && e.page in q.pages ==> GoesFirst(d, e)
  }

  /** A page in DRAM was there before, unchanged, or comes from the heap. */
  ghost predicate FromHeap(p: Ptt, q: Ptt) {
    forall g :: g in q.pages ==> (g in p.pages && q.pages[g] == p.pages[g]) || InNvmHeap(p, g)
  }

  ghost predicate InNvmHeap(p: Ptt, g: nat) {
    exists e :: e in p.nvmHeap && e.page == g
  }

  ghost predicate InDramHeap(p: Ptt, g: nat) {
    exists d :: d in p.dramHeap && d.page == g
  }

  /** A page leaves DRAM only from the heap. */
  ghost predicate ByHeap(p: Ptt, q: Ptt) {
    forall g :: g in p.pages && g !in q.pages ==> InDramHeap(p, g)
  }

  /** `rest` holds what is left of the second heap. */
  ghost predicate Remains(p: Ptt, q: Ptt, rest: seq<DramStats>) {
    DramDistinct(rest) && forall d :: d in rest <==> d in p.dramHeap && d.page in q.pages
  }

  ghost predicate SameSizes(p: Ptt, q: Ptt) {
    q.pageBlocks == p.pageBlocks && q.capacity == p.capacity && q.length == p.length
  }

  /** What the exchange loop chooses, from `p` to `q`. */
  ghost predicate Chosen(p: Ptt, q: Ptt, rest: seq<DramStats>, low: int) {
    && InEnough(p, q, low) && InBest(p, q) && InAll(p, q, low) && OutUnwritten(p, q) && OutFirst(p, q)
    && FromHeap(p, q) && ByHeap(p, q) && Remains(p, q, rest) && SameSizes(p, q) && PttOk(q)
    && (|p.pages| == p.capacity ==> |q.pages| == q.capacity)
  }

  function Freed(pages: map<nat, Page>, gone: Option<DramStats>): map<nat, Page> {
    if gone.Some? then pages - {gone.value.page} else pages
  }

  /** One turn: `n` comes in, for `gone` if there is no room. */
  ghost predicate Turn(p: Ptt, n: NvmStats, gone: Option<DramStats>, q: Ptt, low: int) {
    && Ready(p) && Ready(q) && SameSizes(p, q) && n in p.nvmHeap && low <= n.dirtyBlocks
    && (forall e :: e in q.nvmHeap <==> e in p.nvmHeap && e != n)
    && (forall e :: e in p.nvmHeap ==> e.dirtyBlocks <= n.dirtyBlocks && (e.page == n.page ==> e == n))
    && n.page in q.pages && Arrived(q.pages[n.page], n, p.pageBlocks)
    && q.pages == Freed(p.pages, gone)[n.page := q.pages[n.page]]
    && (gone.None? ==> q.dramHeap == p.dramHeap && |p.pages| < p.capacity)
    && (gone.Some? ==> |p.pages| == p.capacity == |q.pages| && Leaves(p, gone.value, q))
  }

  ghost predicate Leaves(p: Ptt, d: DramStats, q: Ptt) {
    && d in p.dramHeap && d.writes == 0
    && (forall e :: e in q.dramHeap <==> e in p.dramHeap && e != d)
    && (forall e :: e in p.dramHeap ==> GoesFirst(d, e) && (e.page == d.page ==> e == d))
  }

  /** After a turn, neither heap names the page that came in, nor the first the one that left. */
  lemma TurnNames(p: Ptt, n: NvmStats, gone: Option<DramStats>, m: Ptt, low: int)
    requires Turn(p, n, gone, m, low)
    ensures !InDramHeap(m, n.page) && !InNvmHeap(m, n.page)
    ensures gone.Some? ==> !InNvmHeap(m, gone.value.page) && gone.value.page !in m.pages
  {
    forall d | d in m.dramHeap ensures d.page != n.page {
      assert d in p.dramHeap && Describes(p, d);
    }
    forall e | e in m.nvmHeap ensures e.page != n.page && (gone.Some? ==> e.page != gone.value.page) {
      assert e in p.nvmHeap && (gone.Some? ==> Describes(p, gone.value));
    }
    assert gone.Some? ==> Describes(p, gone.value);
  }

  /** What came in stays as it is, and what left stays away. */
  lemma TurnLasts(p: Ptt, n: NvmStats, gone: Option<DramStats>, m: Ptt, q: Ptt, low: int)
    requires Turn(p, n, gone, m, low) && FromHeap(m, q) && ByHeap(m, q)
    ensures n.page in q.pages && q.pages[n.page] == m.pages[n.page]
    ensures gone.Some? ==> gone.value.page !in q.pages
    ensures forall e :: e in p.nvmHeap && e != n ==> e in m.nvmHeap
  {
    TurnNames(p, n, gone, m, low);
  }

  lemma TurnIns(p: Ptt, n: NvmStats, gone: Option<DramStats>, m: Ptt, q: Ptt, low: int)
    requires Turn(p, n, gone, m, low) && FromHeap(m, q) && ByHeap(m, q) && InEnough(m, q, low) && InBest(m, q)
    ensures InEnough(p, q, low) && InBest(p, q)
  {
    TurnLasts(p, n, gone, m, q, low);
  }

  lemma TurnAll(p: Ptt, n: NvmStats, gone: Option<DramStats>, m: Ptt, q: Ptt, low: int)
    requires Turn(p, n, gone, m, low) && FromHeap(m, q) && ByHeap(m, q) && InAll(m, q, low)
    ensures InAll(p, q, low)
  {
    TurnLasts(p, n, gone, m, q, low);
    forall f | f in p.nvmHeap && f.page !in q.pages && low <= f.dirtyBlocks
      ensures |q.pages| == q.capacity && forall d :: d in p.dramHeap && d.page in q.pages ==> d.writes > 0
    {
      assert f in m.nvmHeap;
      forall d | d in p.dramHeap && d.page in q.pages ensures d.writes > 0 {
        assert d in m.dramHeap;
      }
    }
  }

  lemma TurnOuts(p: Ptt, n: NvmStats, gone: Option<DramStats>, m: Ptt, q: Ptt, low: int)
    requires Turn(p, n, gone, m, low) && FromHeap(m, q) && ByHeap(m, q) && OutUnwritten(m, q) && OutFirst(m, q)
    requires |m.pages| == m.capacity ==> |q.pages| == q.capacity
    ensures OutUnwritten(p, q) && OutFirst(p, q)
  {
    TurnLasts(p, n, gone, m, q, low);
  }

  lemma TurnHeaps(p: Ptt, n: NvmStats, gone: Option<DramStats>, m: Ptt, q: Ptt, rest: seq<DramStats>, low: int)
    requires Turn(p, n, gone, m, low) && FromHeap(m, q) && ByHeap(m, q) && Remains(m, q, rest)
    ensures FromHeap(p, q) && ByHeap(p, q) && Remains(p, q, rest)
  {
    TurnLasts(p, n, gone, m, q, low);
    forall g | g in q.pages ensures (g in p.pages && q.pages[g] == p.pages[g]) || InNvmHeap(p, g) {
      if g == n.page {
        assert InNvmHeap(p, g);
      } else if InNvmHeap(m, g) {
        var e :| e in m.nvmHeap && e.page == g;
        assert e in p.nvmHeap;
      }
    }
    forall g | g in p.pages && g !in q.pages ensures InDramHeap(p, g) {
      if g in m.pages {
        assert InDramHeap(m, g);
        var d :| d in m.dramHeap && d.page == g;
        assert d in p.dramHeap;
      } else {
        assert gone.Some? && gone.value.page == g;
      }
    }
  }

  /** A turn and what follows it. */
  lemma TurnChosen(p: Ptt, n: NvmStats, gone: Option<DramStats>, m: Ptt, q: Ptt, rest: seq<DramStats>, low: int)
    requires Turn(p, n, gone, m, low) && Chosen(m, q, rest, low)
    ensures Chosen(p, q, rest, low)
  {
    TurnIns(p, n, gone, m, q, low);
    TurnAll(p, n, gone, m, q, low);
    TurnOuts(p, n, gone, m, q, low);
    TurnHeaps(p, n, gone, m, q, rest, low);
  }

  // ----- the first loop, case by case -----

  /** What is left of the second heap when the exchange loop ends. */
  function Rest(m: State, exit: Exit): seq<DramStats> {
    if exit.Return? then [] else (if exit.ready.Some? then [exit.ready.value] else []) + m.ptt.dramHeap
  }

  lemma SameChosen(p: Ptt, q: Ptt, low: int)
    requires Ready(p) && q == p.(nvmHeap := q.nvmHeap) && forall e :: e in p.nvmHeap ==> e.dirtyBlocks < low
    ensures Chosen(p, q, q.dramHeap, low)
  {
  }

  /** The table is full, and no unwritten page is left to make room. */
  lemma FullChosen(p: Ptt, q: Ptt, rest: seq<DramStats>, low: int)
    requires Ready(p) && |p.pages| == p.capacity && q == p.(nvmHeap := q.nvmHeap, dramHeap := q.dramHeap)
    requires DramDistinct(rest) && (forall d :: d in rest <==> d in p.dramHeap)
    requires forall d :: d in p.dramHeap ==> d.writes > 0
    ensures Chosen(p, q, rest, low)
  {
  }

  /** If the front of the heap is written, so is every page in it. */
  lemma AllWritten(p: Ptt, d: DramStats)
    requires Ready(p) && d in p.dramHeap && d.writes > 0 && forall e :: e in p.dramHeap ==> GoesFirst(d, e)
    ensures forall e :: e in p.dramHeap ==> e.writes > 0
  {
    assert Describes(p, d);
    forall e | e in p.dramHeap ensures e.writes > 0 {
      assert Describes(p, e);
    }
  }

  lemma TurnIn(p: Ptt, m: Ptt, n: NvmStats, q: Ptt, low: int)
    requires Ready(p) && TookNvm(p, m, n) && CameIn(m, n, q) && low <= n.dirtyBlocks && |p.pages| < p.capacity
    ensures Turn(p, n, None, q, low)
  {
    forall d | d in q.dramHeap ensures Describes(q, d) {
      assert Describes(p, d);
    }
  }

  lemma TurnExchange(p: Ptt, a: Ptt, n: NvmStats, m: Ptt, d: DramStats, u: Ptt, q: Ptt, low: int)
    requires Ready(p) && TookNvm(p, a, n) && TookDram(a, m, d) && WentOut(m, d, u) && CameIn(u, n, q)
    requires low <= n.dirtyBlocks && |p.pages| == p.capacity && d.writes == 0
    ensures Turn(p, n, Some(d), q, low)
  {
    assert Describes(p, d);
    forall e | e in q.dramHeap ensures Describes(q, e) {
      assert e in p.dramHeap && Describes(p, e);
    }
  }

  /** The pages of `q` that are not in `p`. */
  ghost function Arrivals(p: Ptt, q: Ptt): set<nat> {
    q.pages.Keys - p.pages.Keys
  }

  lemma TurnArrivals(p: Ptt, n: NvmStats, gone: Option<DramStats>, m: Ptt, q: Ptt, low: int)
    requires Turn(p, n, gone, m, low) && FromHeap(m, q) && ByHeap(m, q)
    ensures |Arrivals(p, q)| == |Arrivals(m, q)| + 1
  {
    TurnLasts(p, n, gone, m, q, low);
    TurnKeys(p, n, gone, m, low);
    OneArrives(p.pages.Keys, Out(gone), n.page, m.pages.Keys, q.pages.Keys);
  }

  ghost function Out(gone: Option<DramStats>): set<nat> {
    if gone.Some? then {gone.value.page} else {}
  }

  lemma TurnKeys(p: Ptt, n: NvmStats, gone: Option<DramStats>, m: Ptt, low: int)
    requires Turn(p, n, gone, m, low)
    ensures n.page !in p.pages && m.pages.Keys == p.pages.Keys - Out(gone) + {n.page}
  {
    FreedKeys(p.pages, gone, n.page, m.pages[n.page]);
  }

  lemma FreedKeys(pages: map<nat, Page>, gone: Option<DramStats>, g: nat, page: Page)
    ensures Freed(pages, gone)[g := page].Keys == pages.Keys - Out(gone) + {g}
  {
  }

  lemma OneArrives(p: set<nat>, out: set<nat>, x: nat, m: set<nat>, q: set<nat>)
    requires m == p - out + {x} && x !in p && x in q && out !! q
    ensures |q - p| == |q - m| + 1
  {
    assert q - p == q - m + {x};
  }

  /** What the exchange loop hands over: its choice, the count of pages that came in, and what is left of the
      second heap, of which a page in hand goes first. */
  ghost predicate Handover(s: State, m: State, exit: Exit, low: int) {
    && Chosen(s.ptt, m.ptt, Rest(m, exit), low) && m.toNvm == s.toNvm && m.toDram == s.toDram + |Arrivals(s.ptt, m.ptt)|
    && DramDistinct(m.ptt.dramHeap)
    && (exit.Proceed? && exit.ready.Some? ==> forall e :: e in m.ptt.dramHeap ==> GoesFirst(exit.ready.value, e))
  }

  lemma TurnHandover(s: State, n: NvmStats, gone: Option<DramStats>, u: State, m: State, exit: Exit, low: int)
    requires Turn(s.ptt, n, gone, u.ptt, low) && u.toNvm == s.toNvm && u.toDram == s.toDram + 1 && Handover(u, m, exit, low)
    ensures Handover(s, m, exit, low)
  {
    TurnChosen(s.ptt, n, gone, u.ptt, m.ptt, Rest(m, exit), low);
    TurnArrivals(s.ptt, n, gone, u.ptt, m.ptt, low);
  }

  /** The exchange loop ends at once. */
  lemma StopHandover(s: State, m: State, exit: Exit, low: int)
    requires Ready(s.ptt) && m == s.(ptt := m.ptt) && Chosen(s.ptt, m.ptt, Rest(m, exit), low)
    requires m.ptt.pages == s.ptt.pages && DramDistinct(m.ptt.dramHeap)
    requires exit.Proceed? && exit.ready.Some? ==> forall e :: e in m.ptt.dramHeap ==> GoesFirst(exit.ready.value, e)
    ensures Handover(s, m, exit, low)
  {
    assert Arrivals(s.ptt, m.ptt) == {};
  }

  lemma ReadyInHand(p: Ptt, q: Ptt, d: DramStats)
    requires Ready(p) && TookDram(p, q, d)
    ensures DramDistinct([d] + q.dramHeap) && forall e :: e in [d] + q.dramHeap <==> e in p.dramHeap
  {
    forall j | 0 <= j < |q.dramHeap| ensures q.dramHeap[j].page != d.page {
      assert q.dramHeap[j] in q.dramHeap;
    }
  }

  lemma {:induction false} ExchangeChooses(s: State, low: int) returns (m: State, exit: Exit)
    requires Ready(s.ptt) && ExchangePages(s, low).Ok?
    ensures ExchangePages(s, low) == Ok((m, exit)) && Handover(s, m, exit, low)
    decreases |s.ptt.nvmHeap|
  {
    m, exit := ExchangePages(s, low).value.0, ExchangePages(s, low).value.1;
    var x := ExtractNvm(s.ptt).value;
    if x.None? {
      SameChosen(s.ptt, m.ptt, low);
      assert Rest(m, exit) == m.ptt.dramHeap;
      StopHandover(s, m, exit, low);
    } else {
      var (p, n) := x.value;
      NvmTakes(s.ptt, p, n);
      if n.dirtyBlocks < low {
        SameChosen(s.ptt, m.ptt, low);
        assert Rest(m, exit) == m.ptt.dramHeap;
        StopHandover(s, m, exit, low);
      } else if |p.pages| == p.capacity {
        m, exit := FullChooses(s, p, n, low);
      } else {
        var u := MigrateNvm(s.(ptt := p), n).value;
        NvmMovesIn(s.(ptt := p), n, u);
        TurnIn(s.ptt, p, n, u.ptt, low);
        m, exit := ExchangeChooses(u, low);
        TurnHandover(s, n, None, u, m, exit, low);
      }
    }
  }

  lemma {:induction false} FullChooses(s: State, p: Ptt, n: NvmStats, low: int) returns (m: State, exit: Exit)
    requires Ready(s.ptt) && ExchangePages(s, low).Ok? && ExtractNvm(s.ptt) == Ok(Some((p, n))) && TookNvm(s.ptt, p, n)
    requires low <= n.dirtyBlocks && |p.pages| == p.capacity
    ensures ExchangePages(s, low) == Ok((m, exit)) && Handover(s, m, exit, low)
    decreases |s.ptt.nvmHeap|, 0
  {
    m, exit := ExchangePages(s, low).value.0, ExchangePages(s, low).value.1;
    var y := ExtractDram(p).value;
    if y.None? {
      FullChosen(s.ptt, m.ptt, [], low);
      StopHandover(s, m, exit, low);
    } else {
      var (q, d) := y.value;
      DramTakes(p, q, d);
      if d.writes > 0 {
        AllWritten(s.ptt, d);
        ReadyInHand(s.ptt, q.(nvmHeap := s.ptt.nvmHeap), d);
        FullChosen(s.ptt, m.ptt, [d] + q.dramHeap, low);
        StopHandover(s, m, exit, low);
      } else {
        assert Describes(s.ptt, d);
        var v := MigrateDram(s.(ptt := q), d).value;
        DramMovesOut(s.(ptt := q), d, v);
        var u := MigrateNvm(v, n).value;
        NvmMovesIn(v, n, u);
        TurnExchange(s.ptt, p, n, q, d, v.ptt, u.ptt, low);
        m, exit := ExchangeChooses(u, low);
        TurnHandover(s, n, Some(d), u, m, exit, low);
      }
    }
  }

  // ----- the second loop -----

  /** Every page that goes back was written, but not too much. */
  ghost predicate BackEnough(rest: seq<DramStats>, q: Ptt, high: int) {
    forall e :: e in rest && e.page !in q.pages ==> 0 < e.writes <= high
  }

  ghost predicate BackFirst(rest: seq<DramStats>, q: Ptt) {
    forall e, f :: e in rest && f in rest && e.page !in q.pages && f.page in q.pages && f.writes > 0 ==> GoesFirst(e, f)
  }

  ghost predicate InRest(rest: seq<DramStats>, g: nat) {
    exists e :: e in rest && e.page == g
  }

  /** Nothing else changes. */
  ghost predicate BackOnly(p: Ptt, rest: seq<DramStats>, q: Ptt) {
    && (forall g :: g in q.pages ==> g in p.pages && q.pages[g] == p.pages[g])
    && (forall g :: g in p.pages && g !in q.pages ==> InRest(rest, g))
  }

  /** A direct page that was written too much is in the way of the static ones. */
  ghost predicate Blocked(rest: seq<DramStats>, q: Ptt, high: int) {
    exists e :: e in rest && e.page in q.pages && e.writes > high && IsDirect(e.state)
  }

  /** No page that could go back is left, but for static ones behind a direct one that could not. */
  ghost predicate BackAll(rest: seq<DramStats>, q: Ptt, high: int) {
    forall f :: f in rest && f.page in q.pages && 0 < f.writes <= high ==> !IsDirect(f.state) && Blocked(rest, q, high)
  }

  /** What the second loop gives back, `moved` pages of `rest`. */
  ghost predicate Back(p: Ptt, rest: seq<DramStats>, q: Ptt, moved: int, limit: int, high: int) {
    && PttOk(q) && SameSizes(p, q) && BackEnough(rest, q, high) && BackFirst(rest, q) && BackOnly(p, rest, q)
    && |q.pages| + moved == |p.pages| && (moved == limit || BackAll(rest, q, high))
  }

  ghost predicate BackReady(p: Ptt, rest: seq<DramStats>) {
    PttOk(p) && DramDistinct(rest) && forall e :: e in rest ==> Describes(p, e)
  }

  /** `d` goes first of `rest`, of which `more` is what follows. */
  ghost predicate Heads(d: DramStats, more: seq<DramStats>, rest: seq<DramStats>) {
    && d in rest && (forall e :: e in rest <==> e == d || e in more)
    && forall e :: e in more ==> e.page != d.page && GoesFirst(d, e)
  }

  lemma StopBack(p: Ptt, rest: seq<DramStats>, limit: int, high: int)
    requires BackReady(p, rest) && (limit == 0 || BackAll(rest, p, high))
    ensures Back(p, rest, p, 0, limit, high)
  {
    forall e | e in rest ensures e.page in p.pages {
      assert Describes(p, e);
    }
  }

  lemma TooMuchBack(p: Ptt, d: DramStats, more: seq<DramStats>, rest: seq<DramStats>, limit: int, high: int)
    requires BackReady(p, rest) && Heads(d, more, rest) && d.writes > 0 && d.writes > high
    ensures Back(p, rest, p, 0, limit, high)
  {
    assert Describes(p, d);
    forall f | f in rest && 0 < f.writes <= high ensures !IsDirect(f.state) && Blocked(rest, p, high) {
      assert Describes(p, f) && f in more;
    }
    StopBack(p, rest, limit, high);
  }

  lemma SkipBack(p: Ptt, d: DramStats, more: seq<DramStats>, rest: seq<DramStats>, q: Ptt, moved: int, limit: int, high: int)
    requires BackReady(p, rest) && Heads(d, more, rest) && d.writes == 0 && Back(p, more, q, moved, limit, high)
    ensures Back(p, rest, q, moved, limit, high)
  {
    assert Describes(p, d);
    assert !InRest(more, d.page);
    assert d.page in q.pages;
    forall g | g in p.pages && g !in q.pages ensures InRest(rest, g) {
      assert InRest(more, g);
    }
    if BackAll(more, q, high) {
      assert Blocked(more, q, high) ==> Blocked(rest, q, high);
    }
  }

  lemma MoveOnly(p: Ptt, d: DramStats, m: Ptt, more: seq<DramStats>, rest: seq<DramStats>, q: Ptt)
    requires Heads(d, more, rest) && WentOut(p, d, m) && BackOnly(m, more, q)
    ensures BackOnly(p, rest, q) && d.page !in q.pages
  {
    forall g | g in p.pages && g !in q.pages ensures InRest(rest, g) {
      if g != d.page {
        assert InRest(more, g);
      }
    }
  }

  lemma MoveAll(d: DramStats, more: seq<DramStats>, rest: seq<DramStats>, q: Ptt, high: int)
    requires Heads(d, more, rest) && d.page !in q.pages && BackAll(more, q, high)
    ensures BackAll(rest, q, high)
  {
    assert Blocked(more, q, high) ==> Blocked(rest, q, high);
  }

  lemma MoveBack(p: Ptt, d: DramStats, m: Ptt, more: seq<DramStats>, rest: seq<DramStats>, q: Ptt,
      moved: int, limit: int, high: int)
    requires BackReady(p, rest) && Heads(d, more, rest) && 0 < d.writes <= high && WentOut(p, d, m)
    requires Back(m, more, q, moved, limit - 1, high)
    ensures Back(p, rest, q, moved + 1, limit, high)
  {
    MoveOnly(p, d, m, more, rest, q);
    if BackAll(more, q, high) {
      MoveAll(d, more, rest, q, high);
    }
  }

  lemma HeadsAll(p: Ptt, m: Ptt, d: DramStats)
    requires DramDistinct(p.dramHeap) && TookDram(p, m, d)
    ensures Heads(d, m.dramHeap, p.dramHeap) && Heads(d, m.dramHeap, [d] + m.dramHeap) && DramDistinct([d] + m.dramHeap)
  {
    forall j | 0 <= j < |m.dramHeap| ensures m.dramHeap[j].page != d.page {
      assert m.dramHeap[j] in m.dramHeap;
    }
  }

  /** The same elements, in another order. */
  lemma BackSame(p: Ptt, rest: seq<DramStats>, other: seq<DramStats>, q: Ptt, moved: int, limit: int, high: int)
    requires Back(p, rest, q, moved, limit, high) && forall e :: e in other <==> e in rest
    ensures Back(p, other, q, moved, limit, high)
  {
    forall g | g in p.pages && g !in q.pages ensures InRest(other, g) {
      assert InRest(rest, g);
    }
    if BackAll(rest, q, high) {
      assert Blocked(rest, q, high) ==> Blocked(other, q, high);
    }
  }

  /** The heap is left alone by what looks only at the pages. */
  lemma BackHeap(p: Ptt, m: Ptt, rest: seq<DramStats>, q: Ptt, moved: int, limit: int, high: int)
    requires m == p.(dramHeap := m.dramHeap) && Back(m, rest, q, moved, limit, high)
    ensures Back(p, rest, q, moved, limit, high)
  {
  }

  lemma OutReady(p: Ptt, d: DramStats, rest: seq<DramStats>, q: Ptt)
    requires BackReady(p, rest) && Heads(d, p.dramHeap, rest) && DramDistinct(p.dramHeap) && WentOut(p, d, q)
    ensures BackReady(q, q.dramHeap)
  {
    forall e | e in q.dramHeap ensures Describes(q, e) {
      assert e in rest && Describes(p, e);
    }
  }

  /** One page is returned and the loop goes on with one move less. */
  lemma {:induction false} OneOut(s: State, d: DramStats, limit: int, high: int) returns (v: State)
    requires ReturnPages(s, d, limit, high).Ok? && 0 < d.writes <= high && PttOk(s.ptt) && d.page in s.ptt.pages
    ensures ReturnPages(s, d, limit, high) == ReturnMore(v, limit - 1, high)
    ensures v.toNvm == s.toNvm + 1 && v.toDram == s.toDram && WentOut(s.ptt, d, v.ptt)
  {
    var u := MigrateDram(s, d).value;
    DramMovesOut(s, d, u);
    v := u.(toNvm := u.toNvm + 1);
  }

  /** `Back` between two states, guarded. */
  ghost predicate GivesBack(s: State, rest: seq<DramStats>, t: State, limit: int, high: int) {
    && t.toDram == s.toDram && t.toNvm >= s.toNvm
    && forall u {:trigger Unlocked(u)} :: Unlocked(u) ==> Back(s.ptt, rest, t.ptt, t.toNvm - s.toNvm, limit, high)
  }

  lemma UseGivesBack(s: State, rest: seq<DramStats>, t: State, limit: int, high: int)
    requires GivesBack(s, rest, t, limit, high)
    ensures Back(s.ptt, rest, t.ptt, t.toNvm - s.toNvm, limit, high)
  {
    assert Unlocked(0);
  }

  lemma SkipReady(p: Ptt, d: DramStats, rest: seq<DramStats>)
    requires BackReady(p, rest) && Heads(d, p.dramHeap, rest) && DramDistinct(p.dramHeap)
    ensures BackReady(p, p.dramHeap)
  {
  }

  lemma SkipGives(s: State, d: DramStats, rest: seq<DramStats>, t: State, limit: int, high: int)
    requires BackReady(s.ptt, rest) && Heads(d, s.ptt.dramHeap, rest) && d.writes == 0
    requires GivesBack(s, s.ptt.dramHeap, t, limit, high)
    ensures GivesBack(s, rest, t, limit, high)
  {
    UseGivesBack(s, s.ptt.dramHeap, t, limit, high);
    SkipBack(s.ptt, d, s.ptt.dramHeap, rest, t.ptt, t.toNvm - s.toNvm, limit, high);
  }

  lemma MoveGives(s: State, d: DramStats, rest: seq<DramStats>, v: State, t: State, limit: int, high: int)
    requires BackReady(s.ptt, rest) && Heads(d, s.ptt.dramHeap, rest) && 0 < d.writes <= high
    requires WentOut(s.ptt, d, v.ptt) && v.toNvm == s.toNvm + 1 && v.toDram == s.toDram
    requires GivesBack(v, v.ptt.dramHeap, t, limit - 1, high)
    ensures GivesBack(s, rest, t, limit, high)
  {
    UseGivesBack(v, v.ptt.dramHeap, t, limit - 1, high);
    MoveBack(s.ptt, d, v.ptt, s.ptt.dramHeap, rest, t.ptt, t.toNvm - v.toNvm, limit, high);
  }

  lemma HeapGives(s: State, m: State, rest: seq<DramStats>, t: State, limit: int, high: int)
    requires m == s.(ptt := m.ptt) && m.ptt == s.ptt.(dramHeap := m.ptt.dramHeap) && GivesBack(m, rest, t, limit, high)
    ensures GivesBack(s, rest, t, limit, high)
  {
    UseGivesBack(m, rest, t, limit, high);
    BackHeap(s.ptt, m.ptt, rest, t.ptt, t.toNvm - s.toNvm, limit, high);
  }

  /** The page in hand is skipped, stops the loop, or goes back. */
  lemma {:induction false} ReturnChooses(s: State, d: DramStats, rest: seq<DramStats>, limit: int, high: int)
    returns (t: State)
    requires ReturnPages(s, d, limit, high).Ok? && BackReady(s.ptt, rest) && Heads(d, s.ptt.dramHeap, rest)
    requires DramDistinct(s.ptt.dramHeap)
    ensures ReturnPages(s, d, limit, high) == Ok(t) && GivesBack(s, rest, t, limit, high)
    decreases |s.ptt.dramHeap|, 1
  {
    if d.writes == 0 {
      SkipReady(s.ptt, d, rest);
      t := MoreChooses(s, limit, high);
      SkipGives(s, d, rest, t, limit, high);
    } else if d.writes > high {
      t := s;
      TooMuchBack(s.ptt, d, s.ptt.dramHeap, rest, limit, high);
    } else {
      assert Describes(s.ptt, d);
      var v := OneOut(s, d, limit, high);
      OutReady(s.ptt, d, rest, v.ptt);
      t := MoreChooses(v, limit - 1, high);
      MoveGives(s, d, rest, v, t, limit, high);
    }
  }

  lemma {:induction false} MoreChooses(s: State, limit: int, high: int) returns (t: State)
    requires ReturnMore(s, limit, high).Ok? && BackReady(s.ptt, s.ptt.dramHeap)
    ensures ReturnMore(s, limit, high) == Ok(t) && GivesBack(s, s.ptt.dramHeap, t, limit, high)
    decreases |s.ptt.dramHeap|, 0
  {
    if limit == 0 || ExtractDram(s.ptt).value.None? {
      t := s;
      StopBack(s.ptt, s.ptt.dramHeap, limit, high);
    } else {
      var (p, d) := ExtractDram(s.ptt).value.value;
      TakeReady(s.ptt, p, d);
      t := ReturnChooses(s.(ptt := p), d, s.ptt.dramHeap, limit, high);
      HeapGives(s, s.(ptt := p), s.ptt.dramHeap, t, limit, high);
    }
  }

  lemma TakeReady(p: Ptt, m: Ptt, d: DramStats)
    requires BackReady(p, p.dramHeap) && ExtractDram(p) == Ok(Some((m, d)))
    ensures m == p.(dramHeap := m.dramHeap) && |m.dramHeap| < |p.dramHeap|
    ensures BackReady(m, p.dramHeap) && Heads(d, m.dramHeap, p.dramHeap) && DramDistinct(m.dramHeap)
  {
    DramTakes(p, m, d);
    HeadsAll(p, m, d);
    forall e | e in p.dramHeap ensures Describes(m, e) {
      assert Describes(p, e);
    }
  }

  // ----- both loops -----

  lemma RestReady(p: Ptt, q: Ptt, rest: seq<DramStats>, low: int)
    requires Ready(p) && Chosen(p, q, rest, low)
    ensures BackReady(q, rest)
  {
    forall e | e in rest ensures Describes(q, e) {
      assert Describes(p, e);
      assert !InNvmHeap(p, e.page);
    }
  }

  /** The second loop can start from what the first hands over. */
  ghost predicate TakesUp(m: State, exit: Exit) {
    && BackReady(m.ptt, Rest(m, exit)) && DramDistinct(m.ptt.dramHeap)
    && (exit.Proceed? && exit.ready.Some? ==> Heads(exit.ready.value, m.ptt.dramHeap, Rest(m, exit)))
  }

  lemma HandoverTakesUp(s: State, m: State, exit: Exit, low: int)
    requires Ready(s.ptt) && Handover(s, m, exit, low)
    ensures TakesUp(m, exit)
  {
    RestReady(s.ptt, m.ptt, Rest(m, exit), low);
    if exit.Proceed? && exit.ready.Some? {
      InHandFirst(exit.ready.value, m.ptt.dramHeap);
    }
  }

  lemma {:induction false} AfterChooses(m: State, exit: Exit, limit: int, high: int) returns (t: State)
    requires TakesUp(m, exit) && AfterExchange(m, exit, limit, high).Ok?
    ensures AfterExchange(m, exit, limit, high) == Ok(t) && GivesBack(m, Rest(m, exit), t, limit, high)
  {
    var rest := Rest(m, exit);
    if exit.Return? {
      t := m;
      StopBack(m.ptt, rest, limit, high);
    } else if exit.ready.Some? {
      t := ReturnChooses(m, exit.ready.value, rest, limit, high);
    } else {
      assert rest == m.ptt.dramHeap;
      t := FirstChooses(m, limit, high);
    }
  }

  lemma InHandFirst(d: DramStats, more: seq<DramStats>)
    requires DramDistinct([d] + more) && forall e :: e in more ==> GoesFirst(d, e)
    ensures Heads(d, more, [d] + more)
  {
    var rest := [d] + more;
    forall e | e in more ensures e.page != d.page {
      var j :| 0 <= j < |more| && more[j] == e;
      assert rest[0] == d && rest[j + 1] == e;
    }
  }

  lemma {:induction false} FirstChooses(m: State, limit: int, high: int) returns (t: State)
    requires ReturnFirst(m, limit, high).Ok? && BackReady(m.ptt, m.ptt.dramHeap)
    ensures ReturnFirst(m, limit, high) == Ok(t) && GivesBack(m, m.ptt.dramHeap, t, limit, high)
  {
    if ExtractDram(m.ptt).value.None? {
      t := m;
      StopBack(m.ptt, m.ptt.dramHeap, limit, high);
    } else {
      var (p, d) := ExtractDram(m.ptt).value.value;
      TakeReady(m.ptt, p, d);
      t := ReturnChooses(m.(ptt := p), d, m.ptt.dramHeap, limit, high);
      HeapGives(m, m.(ptt := p), m.ptt.dramHeap, t, limit, high);
    }
  }

  /** If a page that was written enough still waits, the table was full, but for what has gone back, and
      all unwritten pages have left. */
  ghost predicate WaitsFull(p: Ptt, q: Ptt, moved: int, low: int) {
    forall f :: f in p.nvmHeap && f.page !in q.pages && low <= f.dirtyBlocks ==>
      |q.pages| + moved == q.capacity && forall d :: d in p.dramHeap && d.page in q.pages ==> d.writes > 0
  }

  /** An unwritten page has left only if the table was full, a written one only if not too much. */
  ghost predicate LeftFor(p: Ptt, q: Ptt, moved: int, high: int) {
    forall d :: d in p.dramHeap && d.page !in q.pages ==>
      if d.writes == 0 then |q.pages| + moved == q.capacity else d.writes <= high
  }

  ghost predicate LeftFirst(p: Ptt, q: Ptt) {
    forall d, e :: d in p.dramHeap && e in p.dramHeap && d.page !in q.pages && e.page in q.pages && (d.writes == 0 || e.writes > 0) ==>
      GoesFirst(d, e)
  }

  /** The written pages of `p` that are not in `q`. */
  ghost function WrittenLeft(p: Ptt, q: Ptt): set<nat> {
    set g | g in p.pages && g !in q.pages && p.pages[g].epochWrites > 0
  }

  /** What the two loops choose, `moved` pages going back. */
  ghost predicate Selected(p: Ptt, q: Ptt, moved: int, low: int, high: int) {
    && InEnough(p, q, low) && InBest(p, q) && WaitsFull(p, q, moved, low)
    && LeftFor(p, q, moved, high) && LeftFirst(p, q)
    && FromHeap(p, q) && ByHeap(p, q) && SameSizes(p, q) && PttOk(q)
    && (moved == p.capacity - p.length || BackAll(p.dramHeap, q, high)) && |WrittenLeft(p, q)| == moved
  }

  /** What came in by the first loop is not touched by the second. */
  lemma ArrivedStay(p: Ptt, m: Ptt, rest: seq<DramStats>, q: Ptt)
    requires Ready(p) && Remains(p, m, rest) && BackOnly(m, rest, q)
    ensures forall e :: e in p.nvmHeap ==> (e.page in q.pages <==> e.page in m.pages)
  {
    forall e | e in p.nvmHeap && e.page in m.pages ensures e.page in q.pages {
      forall d | d in rest ensures d.page != e.page {
        assert Describes(p, d);
      }
      assert !InRest(rest, e.page);
    }
  }

  lemma SelectIns(p: Ptt, m: Ptt, rest: seq<DramStats>, q: Ptt, moved: int, limit: int, low: int, high: int)
    requires Ready(p) && Chosen(p, m, rest, low) && Back(m, rest, q, moved, limit, high)
    ensures InEnough(p, q, low) && InBest(p, q) && WaitsFull(p, q, moved, low)
  {
    ArrivedStay(p, m, rest, q);
    forall f | f in p.nvmHeap && f.page !in q.pages && low <= f.dirtyBlocks
      ensures |q.pages| + moved == q.capacity && forall d :: d in p.dramHeap && d.page in q.pages ==> d.writes > 0
    {
      assert f.page !in m.pages;
    }
  }

  lemma SelectOuts(p: Ptt, m: Ptt, rest: seq<DramStats>, q: Ptt, moved: int, limit: int, low: int, high: int)
    requires Ready(p) && Chosen(p, m, rest, low) && Back(m, rest, q, moved, limit, high)
    ensures LeftFor(p, q, moved, high) && LeftFirst(p, q)
  {
    forall d | d in p.dramHeap && d.page !in q.pages
      ensures if d.writes == 0 then |q.pages| + moved == q.capacity else d.writes <= high
    {
      assert d.page in m.pages ==> d in rest;
    }
    forall d, e | d in p.dramHeap && e in p.dramHeap && d.page !in q.pages && e.page in q.pages && (d.writes == 0 || e.writes > 0)
      ensures GoesFirst(d, e)
    {
      assert d.page in m.pages ==> d in rest;
      assert e.page in m.pages && e in rest;
    }
  }

  lemma SelectHeaps(p: Ptt, m: Ptt, rest: seq<DramStats>, q: Ptt, moved: int, limit: int, low: int, high: int)
    requires Ready(p) && Chosen(p, m, rest, low) && Back(m, rest, q, moved, limit, high)
    ensures FromHeap(p, q) && ByHeap(p, q) && (moved == limit || BackAll(p.dramHeap, q, high))
  {
    forall g | g in p.pages && g !in q.pages ensures InDramHeap(p, g) {
      if g in m.pages {
        assert InRest(rest, g);
        var d :| d in rest && d.page == g;
        assert d in p.dramHeap;
      }
    }
    if BackAll(rest, q, high) {
      forall f | f in p.dramHeap && f.page in q.pages && 0 < f.writes <= high
        ensures !IsDirect(f.state) && Blocked(p.dramHeap, q, high)
      {
        assert f in rest;
        var e :| e in rest && e.page in q.pages && e.writes > high && IsDirect(e.state);
        assert e in p.dramHeap;
      }
    }
  }

  lemma WrittenStay(p: Ptt, m: Ptt, g: nat)
    requires Ready(p) && OutUnwritten(p, m) && ByHeap(p, m) && g in p.pages && g !in m.pages
    ensures p.pages[g].epochWrites == 0
  {
    assert InDramHeap(p, g);
    var d :| d in p.dramHeap && d.page == g;
    assert Describes(p, d);
  }

  lemma BackWritten(p: Ptt, m: Ptt, rest: seq<DramStats>, q: Ptt, high: int, g: nat)
    requires Ready(p) && Remains(p, m, rest) && BackEnough(rest, q, high) && BackOnly(m, rest, q)
    requires g in m.pages && g !in q.pages
    ensures g in p.pages && p.pages[g].epochWrites > 0
  {
    assert InRest(rest, g);
    var d :| d in rest && d.page == g;
    assert d in p.dramHeap && Describes(p, d);
  }

  lemma KeysLess(a: map<nat, Page>, b: map<nat, Page>)
    requires forall g :: g in b ==> g in a
    ensures |a.Keys - b.Keys| == |a| - |b|
  {
    assert b.Keys <= a.Keys && a.Keys == (a.Keys - b.Keys) + b.Keys;
  }

  lemma LeftCount(p: Ptt, m: Ptt, q: Ptt)
    requires forall g :: g in q.pages ==> g in m.pages
    requires forall g :: g in m.pages && g !in q.pages ==> g in p.pages && p.pages[g].epochWrites > 0
    requires forall g :: g in p.pages && g !in m.pages ==> p.pages[g].epochWrites == 0
    ensures |WrittenLeft(p, q)| == |m.pages| - |q.pages|
  {
    assert WrittenLeft(p, q) == m.pages.Keys - q.pages.Keys;
    KeysLess(m.pages, q.pages);
  }

  lemma SelectCount(p: Ptt, m: Ptt, rest: seq<DramStats>, q: Ptt, moved: int, limit: int, low: int, high: int)
    requires Ready(p) && Chosen(p, m, rest, low) && Back(m, rest, q, moved, limit, high)
    ensures |WrittenLeft(p, q)| == moved
  {
    forall g | g in m.pages && g !in q.pages ensures g in p.pages && p.pages[g].epochWrites > 0 {
      BackWritten(p, m, rest, q, high, g);
    }
    forall g | g in p.pages && g !in m.pages ensures p.pages[g].epochWrites == 0 {
      WrittenStay(p, m, g);
    }
    LeftCount(p, m, q);
  }

  lemma SelectArrivals(p: Ptt, m: Ptt, rest: seq<DramStats>, q: Ptt)
    requires Ready(p) && FromHeap(p, m) && Remains(p, m, rest) && BackOnly(m, rest, q)
    ensures Arrivals(p, q) == Arrivals(p, m)
  {
    ArrivedStay(p, m, rest, q);
    forall g | g in Arrivals(p, m) ensures g in q.pages {
      assert InNvmHeap(p, g);
    }
  }

  /** `Handover`, guarded. */
  ghost predicate Hands(s: State, m: State, exit: Exit, low: int) {
    forall u {:trigger Unlocked(u)} :: Unlocked(u) ==> Handover(s, m, exit, low)
  }

  lemma {:induction false} ExchangeHands(s: State, m: State, exit: Exit, low: int)
    requires Ready(s.ptt) && ExchangeYields(s, low, m, exit)
    ensures Hands(s, m, exit, low)
  {
    assert Unlocked(0);
    var a, b := ExchangeChooses(s, low);
  }

  lemma HandsTakeUp(s: State, m: State, exit: Exit, low: int)
    requires Ready(s.ptt) && Hands(s, m, exit, low)
    ensures TakesUp(m, exit)
  {
    assert Unlocked(0);
    HandoverTakesUp(s, m, exit, low);
  }

  lemma {:induction false} AfterHands(m: State, exit: Exit, t: State, limit: int, high: int)
    requires TakesUp(m, exit) && AfterYields(m, exit, limit, high, t)
    ensures GivesBack(m, Rest(m, exit), t, limit, high)
  {
    assert Unlocked(0);
    var u := AfterChooses(m, exit, limit, high);
  }

  lemma {:induction false} LoopsGive(s: State, m: State, exit: Exit, t: State, low: int, high: int)
    requires TakesUp(m, exit) && ExchangeYields(s, low, m, exit) && LoopsYield(s, low, high, t)
    ensures GivesBack(m, Rest(m, exit), t, m.ptt.capacity - m.ptt.length, high)
  {
    AfterOf(s, m, exit, t, low, high);
    AfterHands(m, exit, t, m.ptt.capacity - m.ptt.length, high);
  }

  /** The two loops of MigratePages, from filled heaps. */
  lemma {:induction false} LoopsSelect(s: State, m: State, exit: Exit, t: State, low: int, high: int)
    requires Ready(s.ptt) && ExchangeYields(s, low, m, exit) && LoopsYield(s, low, high, t)
    ensures t.toNvm >= s.toNvm && t.toDram == s.toDram + |Arrivals(s.ptt, t.ptt)|
    ensures Selected(s.ptt, t.ptt, t.toNvm - s.toNvm, low, high)
  {
    ExchangeHands(s, m, exit, low);
    HandsTakeUp(s, m, exit, low);
    LoopsGive(s, m, exit, t, low, high);
    HandoverSelected(s, m, exit, t, low, high);
  }

  lemma HandoverSelected(s: State, m: State, exit: Exit, t: State, low: int, high: int)
    requires Ready(s.ptt) && Hands(s, m, exit, low)
    requires GivesBack(m, Rest(m, exit), t, m.ptt.capacity - m.ptt.length, high)
    ensures t.toNvm >= s.toNvm && t.toDram == s.toDram + |Arrivals(s.ptt, t.ptt)|
    ensures Selected(s.ptt, t.ptt, t.toNvm - s.toNvm, low, high)
  {
    assert Unlocked(0);
    UseGivesBack(m, Rest(m, exit), t, m.ptt.capacity - m.ptt.length, high);
    LoopsSelected(s.ptt, m.ptt, Rest(m, exit), t.ptt, t.toNvm - s.toNvm, low, high);
  }

  lemma LoopsSelected(p: Ptt, m: Ptt, rest: seq<DramStats>, q: Ptt, moved: int, low: int, high: int)
    requires Ready(p) && Chosen(p, m, rest, low) && Back(m, rest, q, moved, m.capacity - m.length, high)
    ensures Selected(p, q, moved, low, high) && Arrivals(p, q) == Arrivals(p, m)
  {
    var limit := m.capacity - m.length;
    SelectIns(p, m, rest, q, moved, limit, low, high);
    SelectOuts(p, m, rest, q, moved, limit, low, high);
    SelectHeaps(p, m, rest, q, moved, limit, low, high);
    SelectCount(p, m, rest, q, moved, limit, low, high);
    SelectArrivals(p, m, rest, q);
  }
}
