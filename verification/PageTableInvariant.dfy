/** What every page-table operation keeps, and what InputBlocks counts. */
module PageTableInvariants {
  import opened Outcomes
  import opened Lists
  import opened Counting
  import opened Sums
  import opened TranslationTables
  import opened PageTables

  predicate Apart(pages: map<nat, Page>, g: nat, h: nat) {
    g in pages && h in pages && g != h ==> pages[g].slot != pages[h].slot
  }

  /** Free slots and page slots never overlap, and none is lost. */
  ghost predicate SlotsOk(capacity: nat, freeSlots: seq<nat>, pages: map<nat, Page>) {
    && NoDup(freeSlots) && (forall x :: x in freeSlots ==> x < capacity)
    && (forall g :: g in pages ==> pages[g].slot < capacity && pages[g].slot !in freeSlots)
    && (forall g, h :: Apart(pages, g, h))
    && |freeSlots| + |pages| == capacity
  }

  /** A page has writes this epoch exactly when its state is dirty; it sits at its own base. */
  ghost predicate PagesOk(pages: map<nat, Page>) {
    forall g :: g in pages ==>
      pages[g].base == g && (pages[g].epochWrites > 0 <==> IsDirty(pages[g].state))
  }

  ghost predicate PttOk(p: Ptt) {
    && p.capacity == p.length + p.length / 16
    && SlotsOk(p.capacity, p.freeSlots, p.pages)
    && PagesOk(p.pages)
    && p.dirty == |DirtyPages(p.pages)|
  }

  /** Between BeginCheckpointing and the next MigratePages nothing is collected. */
  ghost predicate Idle(p: Ptt) {
    !p.dramFilled && !p.nvmFilled && p.nvmPages == map[] && p.dramHeap == [] && p.nvmHeap == []
  }

  ghost function DramWrites(p: Ptt): nat {
    Sum(DramWritesOf(p.pages))
  }

  lemma EmptyOk(pageBlocks: Positive, length: nat)
    ensures PttOk(PageTables.Empty(pageBlocks, length)) && Idle(PageTables.Empty(pageBlocks, length))
  {
    var p := PageTables.Empty(pageBlocks, length);
    assert DirtyPages(p.pages) == {};
  }

  /** Free slots and the slots of resident pages partition `[0, capacity)`. */
  lemma SlotsPartition(p: Ptt, x: nat)
    requires PttOk(p) && x < p.capacity
    ensures x in p.freeSlots <==> !exists g :: g in p.pages && p.pages[g].slot == x
  {
    var f := map g | g in p.pages :: p.pages[g].slot;
    var free := set y | y in p.freeSlots;
    ListingCardinality(p.freeSlots, free);
    RangeCardinality(p.capacity);
    assert free <= Range(p.capacity);
    assert f.Keys == p.pages.Keys;
    forall g, h | g in f && h in f && g != h ensures f[g] != f[h] {
      assert Apart(p.pages, g, h);
    }
    InjectiveIsOnto(f, Range(p.capacity) - free);
    if x !in p.freeSlots {
      assert x in f.Values;
    }
  }

  function Written(e: Page): Page {
    e.(epochWrites := e.epochWrites + 1,
       state := match e.state
                case CleanStatic => DirtyDirect
                case CleanDirect => DirtyStatic
                case st => st)
  }

  /** One more write to a page: it is dirty, and if it was clean it turns from direct to static or back. */
  predicate PageWritten(e: Page, f: Page) {
    && f.slot == e.slot && f.base == e.base && f.epochReads == e.epochReads && f.epochWrites == e.epochWrites + 1
    && IsDirty(f.state) && (IsDirect(f.state) <==> (IsDirect(e.state) <==> IsDirty(e.state)))
  }

  lemma RecordWriteShape(p: Ptt, page: nat)
    requires page in p.pages
    ensures var e := p.pages[page];
      RecordWrite(p, page) == Ok(p.(pages := p.pages[page := Written(e)],
                                    dirty := if IsDirty(e.state) then p.dirty else p.dirty + 1))
  {
    var e := p.pages[page];
    var p1 := AddPageWrite(p, page).value;
    assert p1.pages[page] == e.(epochWrites := e.epochWrites + 1);
    assert p.pages[page := p1.pages[page]][page := Written(e)] == p.pages[page := Written(e)];
  }

  lemma SlotsUpdate(capacity: nat, freeSlots: seq<nat>, pages: map<nat, Page>, page: nat, e: Page)
    requires SlotsOk(capacity, freeSlots, pages) && page in pages && e.slot == pages[page].slot
    ensures SlotsOk(capacity, freeSlots, pages[page := e])
  {
    assert pages[page := e].Keys == pages.Keys;
    var updated := pages[page := e];
    forall g, h ensures Apart(updated, g, h) {
      assert Apart(pages, g, h);
    }
  }

  lemma DirtyUpdate(pages: map<nat, Page>, page: nat, e: Page)
    ensures DirtyPages(pages[page := e]) ==
      if IsDirty(e.state) then DirtyPages(pages) + {page} else DirtyPages(pages) - {page}
  {
  }

  lemma WritesUpdate(pages: map<nat, Page>, page: nat, e: Page)
    requires page in pages
    ensures Sum(DramWritesOf(pages[page := e])) ==
      Sum(DramWritesOf(pages)) - pages[page].epochWrites + e.epochWrites
  {
    SumUpdate(DramWritesOf(pages), page, e.epochWrites);
    assert DramWritesOf(pages[page := e]) == DramWritesOf(pages)[page := e.epochWrites];
  }

  /** A page once dirty stays so, and a page made dirty counts once more. */
  lemma DirtyCount(pages: map<nat, Page>, page: nat, e: Page)
    requires page in pages && (IsDirty(pages[page].state) ==> IsDirty(e.state))
    ensures |DirtyPages(pages[page := e])| ==
      |DirtyPages(pages)| + if IsDirty(e.state) && !IsDirty(pages[page].state) then 1 else 0
  {
    DirtyUpdate(pages, page, e);
    if IsDirty(pages[page].state) {
      assert DirtyPages(pages) + {page} == DirtyPages(pages);
    } else {
      assert DirtyPages(pages) - {page} == DirtyPages(pages);
    }
  }

  /** Changing the counts and state of a resident page. */
  lemma PageUpdateOk(p: Ptt, page: nat, e: Page, q: Ptt)
    requires PttOk(p) && page in p.pages && e.slot == p.pages[page].slot && e.base == p.pages[page].base
    requires e.epochWrites > 0 <==> IsDirty(e.state)
    requires q == p.(pages := p.pages[page := e], dirty := q.dirty) && q.dirty == |DirtyPages(q.pages)|
    ensures PttOk(q) && q.pages.Keys == p.pages.Keys
    ensures DramWrites(q) == DramWrites(p) - p.pages[page].epochWrites + e.epochWrites
  {
    SlotsUpdate(p.capacity, p.freeSlots, p.pages, page, e);
    WritesUpdate(p.pages, page, e);
  }

  lemma RecordWriteOk(p: Ptt, page: nat)
    requires PttOk(p) && page in p.pages
    ensures RecordWrite(p, page).Ok?
    ensures var q := RecordWrite(p, page).value;
      && PttOk(q) && q.pages.Keys == p.pages.Keys && DramWrites(q) == DramWrites(p) + 1
      && q == p.(pages := q.pages, dirty := q.dirty)
      && q.pages == p.pages[page := q.pages[page]] && PageWritten(p.pages[page], q.pages[page])
  {
    RecordWriteShape(p, page);
    var e := Written(p.pages[page]);
    DirtyCount(p.pages, page, e);
    PageUpdateOk(p, page, e, RecordWrite(p, page).value);
  }

  lemma SlotsReturn(capacity: nat, freeSlots: seq<nat>, pages: map<nat, Page>, page: nat)
    requires SlotsOk(capacity, freeSlots, pages) && page in pages
    ensures SlotsOk(capacity, freeSlots + [pages[page].slot], pages - {page})
  {
    assert (pages - {page}).Keys == pages.Keys - {page};
    var rest := pages - {page};
    forall g, h ensures Apart(rest, g, h) {
      assert Apart(pages, g, h);
    }
    forall g | g in pages - {page} ensures pages[g].slot !in freeSlots + [pages[page].slot] {
      assert Apart(pages, g, page);
    }
  }

  lemma SlotsTake(capacity: nat, freeSlots: seq<nat>, pages: map<nat, Page>, page: nat, e: Page)
    requires SlotsOk(capacity, freeSlots, pages) && page !in pages && freeSlots != []
    requires e.slot == freeSlots[|freeSlots| - 1]
    ensures SlotsOk(capacity, freeSlots[..|freeSlots| - 1], pages[page := e])
  {
    var rest := freeSlots[..|freeSlots| - 1];
    assert forall x :: x in rest ==> x in freeSlots;
    assert e.slot in freeSlots && e.slot !in rest;
    assert pages[page := e].Keys == pages.Keys + {page};
    var updated := pages[page := e];
    forall g, h ensures Apart(updated, g, h) {
      assert Apart(pages, g, h);
    }
  }

  lemma FreePageOk(p: Ptt, page: nat)
    requires PttOk(p) && page in p.pages
    ensures FreePage(p, page).Ok?
    ensures var q := FreePage(p, page).value;
      && PttOk(q) && q.pages == p.pages - {page} && |q.pages| == |p.pages| - 1
      && q == p.(pages := q.pages, dirty := q.dirty, freeSlots := q.freeSlots)
      && q.freeSlots == p.freeSlots + [p.pages[page].slot]
  {
    SlotsReturn(p.capacity, p.freeSlots, p.pages, page);
    assert DirtyPages(p.pages - {page}) == DirtyPages(p.pages) - {page};
  }

  lemma SetupPageShape(p: Ptt, page: nat, st: PageState, e: Page, q: Ptt)
    requires page !in p.pages && |p.pages| < p.capacity && |p.freeSlots| + |p.pages| == p.capacity && !IsDirty(st)
    requires e == Page(st, 0, 0, p.freeSlots[|p.freeSlots| - 1], page)
    requires q == p.(pages := p.pages[page := e], freeSlots := p.freeSlots[..|p.freeSlots| - 1])
    ensures SetupPage(p, page, st) == Ok(q) && q.pages.Keys == p.pages.Keys + {page} && |q.pages| == |p.pages| + 1
  {
    assert q.pages.Keys == p.pages.Keys + {page};
  }

  lemma SetupPageOk(p: Ptt, page: nat, st: PageState) returns (q: Ptt)
    requires PttOk(p) && page !in p.pages && |p.pages| < p.capacity && !IsDirty(st)
    ensures SetupPage(p, page, st) == Ok(q) && PttOk(q) && q.pages.Keys == p.pages.Keys + {page}
    ensures |q.pages| == |p.pages| + 1 && q == p.(pages := q.pages, freeSlots := q.freeSlots)
    ensures q.pages == p.pages[page := q.pages[page]] && q.freeSlots + [q.pages[page].slot] == p.freeSlots
    ensures q.pages[page] == Page(st, 0, 0, q.pages[page].slot, page)
  {
    var last := |p.freeSlots| - 1;
    var e := Page(st, 0, 0, p.freeSlots[last], page);
    q := p.(pages := p.pages[page := e], freeSlots := p.freeSlots[..last]);
    SetupPageShape(p, page, st, e, q);
    SetupPageInv(p, page, e, q);
  }

  lemma SetupPageInv(p: Ptt, page: nat, e: Page, q: Ptt)
    requires PttOk(p) && page !in p.pages && |p.pages| < p.capacity && !IsDirty(e.state) && e.epochWrites == 0
    requires e.base == page && e.slot == p.freeSlots[|p.freeSlots| - 1]
    requires q == p.(pages := p.pages[page := e], freeSlots := p.freeSlots[..|p.freeSlots| - 1])
    ensures PttOk(q)
  {
    SlotsTake(p.capacity, p.freeSlots, p.pages, page, e);
    DirtyUpdate(p.pages, page, e);
    DirtyInside(p.pages, page);
  }

  lemma DirtyInside(pages: map<nat, Page>, page: nat)
    requires page !in pages
    ensures DirtyPages(pages) - {page} == DirtyPages(pages)
  {
  }

  /** A page at the end of an epoch: clean, with its counters at zero, and direct if and only if it was. */
  predicate PageRenewed(e: Page, f: Page) {
    && f.slot == e.slot && f.base == e.base && f.epochReads == f.epochWrites == 0
    && !IsDirty(f.state) && (IsDirect(f.state) <==> IsDirect(e.state))
  }

  ghost predicate PagesRenewed(a: map<nat, Page>, b: map<nat, Page>) {
    b.Keys == a.Keys && forall g :: g in a ==> PageRenewed(a[g], b[g])
  }

  lemma CleanedOk(p: Ptt, pages: map<nat, Page>)
    requires PttOk(p)
    requires pages == map g | g in p.pages ::
      p.pages[g].(epochReads := 0, epochWrites := 0, state := Cleaned(p.pages[g].state))
    ensures pages.Keys == p.pages.Keys && SlotsOk(p.capacity, p.freeSlots, pages)
    ensures PagesOk(pages) && DirtyPages(pages) == {} && PagesRenewed(p.pages, pages)
  {
    assert pages.Keys == p.pages.Keys;
    forall g, h ensures Apart(pages, g, h) {
      assert Apart(p.pages, g, h);
    }
  }

  lemma ClearOk(p: Ptt)
    requires PttOk(p)
    ensures Clear(p).Ok?
    ensures var q := Clear(p).value;
      && PttOk(q) && Idle(q) && q.pages.Keys == p.pages.Keys && DramWrites(q) == 0 && PagesRenewed(p.pages, q.pages)
      && q == p.(pages := q.pages, dirty := q.dirty, nvmPages := map[], dramHeap := [], nvmHeap := [],
                 dramFilled := false, nvmFilled := false)
  {
    var q := Clear(p).value;
    CleanedOk(p, q.pages);
    ZeroSum(DramWritesOf(q.pages));
  }

  lemma {:induction false} ZeroSum(m: map<nat, nat>)
    requires forall x :: x in m ==> m[x] == 0
    ensures Sum(m) == 0
    decreases |m|
  {
    if m != map[] {
      var x :| x in m && Sum(m) == m[x] + Sum(m - {x});
      assert (m - {x}).Keys == m.Keys - {x};
      ZeroSum(m - {x});
    }
  }

  // ----- InputBlocks -----

  /** NVM stores recorded in the first `n` entries. */
  ghost function EntryWrites(es: seq<Entry>, n: nat): nat
    requires n <= |es|
  {
    if n == 0 then 0 else EntryWrites(es, n - 1) + es[n - 1].epochWrites
  }

  lemma {:induction false} ZeroWrites(es: seq<Entry>, n: nat)
    requires n <= |es| && forall j :: 0 <= j < n ==> es[j].epochWrites == 0
    ensures EntryWrites(es, n) == 0
  {
    if n > 0 {
      ZeroWrites(es, n - 1);
    }
  }

  predicate Settled(e: Entry) {
    e.state == Clean || e.state == Free
  }

  /** Pages of the first `n` entries that InputBlocks looks at. */
  ghost function ActivePages(es: seq<Entry>, n: nat, k: Positive): (r: set<nat>)
    requires n <= |es|
    ensures forall i :: 0 <= i < n && !Settled(es[i]) ==> PageNumber(es[i].tag, k) in r
    ensures forall g :: g in r ==> exists i :: 0 <= i < n && !Settled(es[i]) && PageNumber(es[i].tag, k) == g
  {
    if n == 0 then {}
    else if Settled(es[n - 1]) then ActivePages(es, n - 1, k)
    else ActivePages(es, n - 1, k) + {PageNumber(es[n - 1].tag, k)}
  }

  function Interval(lo: nat, n: nat): (r: set<nat>)
    ensures forall x: int :: x in r <==> lo <= x < lo + n
    ensures |r| == n
  {
    if n == 0 then {} else Interval(lo, n - 1) + {lo + n - 1}
  }

  lemma PageBlocksBound(blocks: set<nat>, page: nat, k: Positive)
    requires InPage(blocks, page, k)
    ensures |blocks| <= k
  {
    forall b | b in blocks ensures b in Interval(page * k, k) {
      assert PageNumber(b, k) == page;
      assert b == (b / k) * k + b % k;
    }
    SubsetCardinality(blocks, Interval(page * k, k));
  }

  ghost predicate InPage(blocks: set<nat>, page: nat, k: Positive) {
    forall b :: b in blocks ==> PageNumber(b, k) == page
  }

  ghost predicate BlocksInPage(m: map<nat, NvmPage>, k: Positive) {
    forall g :: g in m ==> InPage(m[g].blocks, g, k)
  }

  lemma GatherOk(m: map<nat, NvmPage>, e: Entry, k: Positive)
    requires BlocksInPage(m, k)
    ensures var page := PageNumber(e.tag, k);
      var np := Gather(PageIn(m, page), e);
      |np.blocks| <= k && BlocksInPage(m[page := np], k) && m[page := np].Keys == m.Keys + {page}
  {
    var page := PageNumber(e.tag, k);
    var np := Gather(PageIn(m, page), e);
    assert InPage(PageIn(m, page).blocks, page, k);
    assert InPage(np.blocks, page, k);
    PageBlocksBound(np.blocks, page, k);
  }

  ghost predicate SettledUnwritten(es: seq<Entry>, n: nat)
    requires n <= |es|
  {
    forall i :: 0 <= i < n && Settled(es[i]) ==> es[i].epochWrites == 0
  }

  lemma {:induction false} CollectBlocks(es: seq<Entry>, n: nat, k: Positive)
    requires n <= |es| && Collect(es, n, k).Ok?
    ensures BlocksInPage(Collect(es, n, k).value, k)
  {
    if n > 0 {
      CollectBlocks(es, n - 1, k);
      GatherOk(Collect(es, n - 1, k).value, es[n - 1], k);
    }
  }

  lemma {:induction false} CollectOne(es: seq<Entry>, n: nat, k: Positive, m: map<nat, NvmPage>)
    requires 0 < n <= |es| && Collect(es, n - 1, k) == Ok(m) && BlocksInPage(m, k)
    ensures Collect(es, n, k).Ok? <==> (Settled(es[n - 1]) ==> es[n - 1].epochWrites == 0)
  {
    GatherOk(m, es[n - 1], k);
  }

  /** The collection loop aborts exactly on a settled entry with writes; no page overflows. */
  lemma {:induction false} CollectOk(es: seq<Entry>, n: nat, k: Positive)
    requires n <= |es|
    ensures Collect(es, n, k).Ok? <==> SettledUnwritten(es, n)
  {
    if n > 0 {
      CollectOk(es, n - 1, k);
      if Collect(es, n - 1, k).Ok? {
        CollectBlocks(es, n - 1, k);
        CollectOne(es, n, k, Collect(es, n - 1, k).value);
      }
    }
  }

  lemma {:induction false} CollectKeys(es: seq<Entry>, n: nat, k: Positive)
    requires n <= |es| && Collect(es, n, k).Ok?
    ensures Collect(es, n, k).value.Keys == ActivePages(es, n, k)
  {
    if n > 0 {
      CollectKeys(es, n - 1, k);
    }
  }

  /** Conservation: the per-page counts add up to the per-entry counts. */
  lemma {:induction false} CollectSum(es: seq<Entry>, n: nat, k: Positive)
    requires n <= |es| && Collect(es, n, k).Ok?
    ensures Sum(NvmWritesOf(Collect(es, n, k).value)) == EntryWrites(es, n)
  {
    if n == 0 {
      assert NvmWritesOf(map[]) == map[];
    } else {
      CollectSum(es, n - 1, k);
      var e := es[n - 1];
      if !Settled(e) {
        var m := Collect(es, n - 1, k).value;
        var page := PageNumber(e.tag, k);
        var np := Gather(PageIn(m, page), e);
        SumUpdate(NvmWritesOf(m), page, np.epochWrites);
        assert NvmWritesOf(m[page := np]) == NvmWritesOf(m)[page := np.epochWrites];
      }
    }
  }

  // ----- which blocks and writes a page is credited with -----

  /** Entry `i` counts for page `g`: it is in use, and its block lies in `g`. */
  ghost predicate CountsFor(es: seq<Entry>, i: nat, g: nat, k: Positive) {
    i < |es| && !Settled(es[i]) && PageNumber(es[i].tag, k) == g
  }

  /** The blocks of page `g` that some entry has written this epoch. */
  ghost function WrittenBlocks(es: seq<Entry>, n: nat, g: nat, k: Positive): (r: set<nat>)
    requires n <= |es|
    ensures forall b :: b in r <==> exists i :: 0 <= i < n && CountsFor(es, i, g, k) && es[i].epochWrites != 0 && es[i].tag == b
  {
    set i | 0 <= i < n && CountsFor(es, i, g, k) && es[i].epochWrites != 0 :: es[i].tag
  }

  /** The writes of all entries of page `g`. */
  ghost function PageWrites(es: seq<Entry>, n: nat, g: nat, k: Positive): nat
    requires n <= |es|
  {
    if n == 0 then 0
    else PageWrites(es, n - 1, g, k) + if CountsFor(es, n - 1, g, k) then es[n - 1].epochWrites else 0
  }

  /** The reads of all entries of page `g`. */
  ghost function PageReads(es: seq<Entry>, n: nat, g: nat, k: Positive): nat
    requires n <= |es|
  {
    if n == 0 then 0
    else PageReads(es, n - 1, g, k) + if CountsFor(es, n - 1, g, k) then es[n - 1].epochReads else 0
  }

  lemma WrittenNext(es: seq<Entry>, n: nat, g: nat, k: Positive)
    requires 0 < n <= |es|
    ensures WrittenBlocks(es, n, g, k) == WrittenBlocks(es, n - 1, g, k) +
      if CountsFor(es, n - 1, g, k) && es[n - 1].epochWrites != 0 then {es[n - 1].tag} else {}
  {
  }

  lemma {:induction false} CollectWrites(es: seq<Entry>, n: nat, k: Positive, g: nat)
    requires n <= |es| && Collect(es, n, k).Ok?
    ensures var np := PageIn(Collect(es, n, k).value, g);
      np.blocks == WrittenBlocks(es, n, g, k) && np.epochWrites == PageWrites(es, n, g, k)
  {
    if n > 0 {
      CollectWrites(es, n - 1, k, g);
      WrittenNext(es, n, g, k);
    }
  }

  lemma {:induction false} CollectReads(es: seq<Entry>, n: nat, k: Positive, g: nat)
    requires n <= |es| && Collect(es, n, k).Ok?
    ensures PageIn(Collect(es, n, k).value, g).epochReads == PageReads(es, n, g, k)
  {
    if n > 0 {
      CollectReads(es, n - 1, k, g);
    }
  }

  /** A page is credited with exactly its written blocks, their writes and the reads of its entries. */
  lemma {:induction false} CollectCredits(es: seq<Entry>, n: nat, k: Positive, g: nat)
    requires n <= |es| && Collect(es, n, k).Ok?
    ensures PageIn(Collect(es, n, k).value, g) ==
      NvmPage(PageReads(es, n, g, k), PageWrites(es, n, g, k), WrittenBlocks(es, n, g, k))
  {
    CollectWrites(es, n, k, g);
    CollectReads(es, n, k, g);
  }

  /** The heap element of page `g`: its dirty blocks and its writes. */
  ghost function Weight(es: seq<Entry>, g: nat, k: Positive): NvmStats {
    NvmStats(g, |WrittenBlocks(es, |es|, g, k)|, PageWrites(es, |es|, g, k))
  }

  /** The heap weighs the pages of `order`. */
  ghost predicate Weighed(h: seq<NvmStats>, order: seq<nat>, es: seq<Entry>, k: Positive) {
    |h| == |order| && forall j :: 0 <= j < |h| ==> h[j] == Weight(es, order[j], k)
  }

  lemma {:induction false} HeapWeighed(m: map<nat, NvmPage>, order: seq<nat>, es: seq<Entry>, k: Positive)
    requires Collect(es, |es|, k) == Ok(m) && forall g :: g in order ==> g in m
    ensures Weighed(NvmHeapOf(m, order), order, es, k)
    decreases |order|
  {
    if order != [] {
      HeapWeighed(m, order[..|order| - 1], es, k);
      CollectCredits(es, |es|, k, order[|order| - 1]);
    }
  }

  function NvmHeapPages(h: seq<NvmStats>): seq<nat> {
    if h == [] then [] else NvmHeapPages(h[..|h| - 1]) + [h[|h| - 1].page]
  }

  function DramHeapPages(h: seq<DramStats>): seq<nat> {
    if h == [] then [] else DramHeapPages(h[..|h| - 1]) + [h[|h| - 1].page]
  }

  lemma {:induction false} NvmHeapListing(m: map<nat, NvmPage>, order: seq<nat>)
    requires forall g :: g in order ==> g in m
    ensures NvmHeapPages(NvmHeapOf(m, order)) == order
  {
    if order != [] {
      var rest, h := order[..|order| - 1], NvmHeapOf(m, order);
      NvmHeapListing(m, rest);
      assert h[..|h| - 1] == NvmHeapOf(m, rest);
    }
  }

  lemma {:induction false} DramHeapListing(m: map<nat, Page>, order: seq<nat>)
    requires forall g :: g in order ==> g in m
    ensures DramHeapPages(DramHeapOf(m, order)) == order
  {
    if order != [] {
      var rest, h := order[..|order| - 1], DramHeapOf(m, order);
      DramHeapListing(m, rest);
      assert h[..|h| - 1] == DramHeapOf(m, rest);
    }
  }

  lemma {:induction false} CollectedSum(m: map<nat, NvmPage>, order: seq<nat>)
    requires Listing(order, m.Keys)
    ensures SumAlong(NvmWritesOf(m), order) == Sum(NvmWritesOf(m))
  {
    assert NvmWritesOf(m).Keys == m.Keys;
    SumAlongListing(NvmWritesOf(m), order);
  }

  lemma {:induction false} RecordedSum(m: map<nat, Page>, order: seq<nat>)
    requires Listing(order, m.Keys)
    ensures SumAlong(DramWritesOf(m), order) == Sum(DramWritesOf(m))
  {
    assert DramWritesOf(m).Keys == m.Keys;
    SumAlongListing(DramWritesOf(m), order);
  }

  lemma {:induction false} InputBlocksShape(p: Ptt, es: seq<Entry>, nvmOrder: seq<nat>, dramOrder: seq<nat>)
    requires p.nvmPages == map[] && p.nvmHeap == [] && p.dramHeap == [] && Collect(es, |es|, p.pageBlocks).Ok?
    requires Listing(nvmOrder, Collect(es, |es|, p.pageBlocks).value.Keys) && Listing(dramOrder, p.pages.Keys)
    requires |WrittenPages(p.pages)| == p.dirty
    ensures var m := Collect(es, |es|, p.pageBlocks).value;
      InputBlocks(p, es, nvmOrder, dramOrder) ==
      Ok(p.(nvmPages := m,
            nvmHeap := NvmHeapOf(m, nvmOrder), nvmFilled := true,
            totalNvm := p.totalNvm + Sum(NvmWritesOf(m)),
            dramHeap := DramHeapOf(p.pages, dramOrder), dramFilled := true,
            totalDram := p.totalDram + DramWrites(p)))
  {
    var m := Collect(es, |es|, p.pageBlocks).value;
    assert InputBlocks(p, es, nvmOrder, dramOrder) == Ok(Filled(p, m, nvmOrder, dramOrder));
    FilledShape(p, m, nvmOrder, dramOrder);
  }

  lemma {:induction false} FilledShape(p: Ptt, m: map<nat, NvmPage>, nvmOrder: seq<nat>, dramOrder: seq<nat>)
    requires p.nvmHeap == [] && p.dramHeap == [] && Listing(nvmOrder, m.Keys) && Listing(dramOrder, p.pages.Keys)
    ensures Filled(p, m, nvmOrder, dramOrder) ==
      p.(nvmPages := m,
         nvmHeap := NvmHeapOf(m, nvmOrder), nvmFilled := true,
         totalNvm := p.totalNvm + Sum(NvmWritesOf(m)),
         dramHeap := DramHeapOf(p.pages, dramOrder), dramFilled := true,
         totalDram := p.totalDram + DramWrites(p))
  {
    CollectedSum(m, nvmOrder);
    RecordedSum(p.pages, dramOrder);
    assert [] + NvmHeapOf(m, nvmOrder) == NvmHeapOf(m, nvmOrder);
    assert [] + DramHeapOf(p.pages, dramOrder) == DramHeapOf(p.pages, dramOrder);
  }

  /** InputBlocks counts exactly the stores recorded since the last clear, whatever the iteration orders,
      and credits each page with exactly its written blocks. */
  lemma {:induction false} InputBlocksOk(p: Ptt, es: seq<Entry>, nvmOrder: seq<nat>, dramOrder: seq<nat>)
    requires PttOk(p) && Idle(p)
    requires SettledUnwritten(es, |es|)
    requires Listing(nvmOrder, ActivePages(es, |es|, p.pageBlocks)) && Listing(dramOrder, p.pages.Keys)
    ensures InputBlocks(p, es, nvmOrder, dramOrder).Ok?
    ensures var q := InputBlocks(p, es, nvmOrder, dramOrder).value;
      && q == p.(nvmPages := q.nvmPages, nvmHeap := q.nvmHeap, dramHeap := q.dramHeap,
                 nvmFilled := true, dramFilled := true, totalNvm := q.totalNvm, totalDram := q.totalDram)
      && q.totalNvm == p.totalNvm + EntryWrites(es, |es|)
      && q.totalDram == p.totalDram + DramWrites(p)
      && NvmHeapPages(q.nvmHeap) == nvmOrder && DramHeapPages(q.dramHeap) == dramOrder
      && q.dramHeap == DramHeapOf(p.pages, dramOrder) && Weighed(q.nvmHeap, nvmOrder, es, p.pageBlocks)
  {
    CollectOk(es, |es|, p.pageBlocks);
    CollectKeys(es, |es|, p.pageBlocks);
    CollectSum(es, |es|, p.pageBlocks);
    assert WrittenPages(p.pages) == DirtyPages(p.pages);
    InputBlocksShape(p, es, nvmOrder, dramOrder);
    var m := Collect(es, |es|, p.pageBlocks).value;
    NvmHeapListing(m, nvmOrder);
    DramHeapListing(p.pages, dramOrder);
    HeapWeighed(m, nvmOrder, es, p.pageBlocks);
  }
}
