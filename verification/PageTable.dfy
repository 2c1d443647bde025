/** The page table (PTT) of pages held in DRAM, and the migration statistics. */
module PageTables {
  import opened Outcomes
  import opened Lists
  import opened Sums
  import opened TranslationTables

  type Positive = x: nat | x > 0 witness 1

  datatype PageState = CleanDirect | CleanStatic | DirtyDirect | DirtyStatic

  predicate IsDirty(st: PageState) {
    st == DirtyDirect || st == DirtyStatic
  }

  predicate IsDirect(st: PageState) {
    st == CleanDirect || st == DirtyDirect
  }

  /** `slot` is the PTT index, `base` the page's machine base (a page number here). */
  datatype Page = Page(state: PageState, epochReads: nat, epochWrites: nat, slot: nat, base: nat)

  datatype NvmPage = NvmPage(epochReads: nat, epochWrites: nat, blocks: set<nat>)

  /** Ratios to the common page size are kept as their numerators. */
  datatype DramStats = DramStats(page: nat, state: PageState, writes: nat)

  datatype NvmStats = NvmStats(page: nat, dirtyBlocks: nat, writes: nat)

  /** The least count whose ratio is not below `ratio`. */
  function CountFrom(ratio: real, pageBlocks: Positive): int {
    -(-(ratio * pageBlocks as real)).Floor
  }

  /** The greatest count whose ratio is not above `ratio`. */
  function CountUpTo(ratio: real, pageBlocks: Positive): int {
    (ratio * pageBlocks as real).Floor
  }

  /** Comparing counts is comparing the ratios the source computes. */
  lemma RatioCounts(n: nat, ratio: real, k: Positive)
    ensures n as real / k as real < ratio <==> n < CountFrom(ratio, k)
    ensures n as real / k as real > ratio <==> n > CountUpTo(ratio, k)
  {
    var r := n as real / k as real;
    assert r * k as real == n as real;
    assert r < ratio <==> r * k as real < ratio * k as real;
    assert r > ratio <==> r * k as real > ratio * k as real;
  }

  datatype Ptt = Ptt(pageBlocks: Positive, length: nat, capacity: nat, dirty: int,
                     freeSlots: seq<nat>, pages: map<nat, Page>,
                     nvmPages: map<nat, NvmPage>, dramHeap: seq<DramStats>, nvmHeap: seq<NvmStats>,
                     dramFilled: bool, nvmFilled: bool, totalNvm: nat, totalDram: nat)

  function Empty(pageBlocks: Positive, length: nat): Ptt {
    var capacity := length + length / 16;
    Ptt(pageBlocks, length, capacity, 0, Iota(capacity), map[], map[], [], [], false, false, 0, 0)
  }

  function PageNumber(tag: nat, pageBlocks: Positive): nat {
    tag / pageBlocks
  }

  function FirstBlock(page: nat, pageBlocks: Positive): nat {
    page * pageBlocks
  }

  function AddPageRead(p: Ptt, page: nat): Outcome<Ptt> {
    (:- Assert(page in p.pages);
     Ok(p.(pages := p.pages[page := p.pages[page].(epochReads := p.pages[page].epochReads + 1)])))
  }

  function AddPageWrite(p: Ptt, page: nat): (r: Outcome<Ptt>)
    ensures r.Ok? ==> page in r.value.pages
  {
    (:- Assert(page in p.pages);
     Ok(p.(pages := p.pages[page := p.pages[page].(epochWrites := p.pages[page].epochWrites + 1)])))
  }

  function ShiftPage(p: Ptt, page: nat, st: PageState): Outcome<Ptt> {
    (:- Assert(page in p.pages);
     Ok(p.(pages := p.pages[page := p.pages[page].(state := st)],
           dirty := if IsDirty(st) then p.dirty + 1 else p.dirty)))
  }

  /** What StoreAddr does to the page it writes: count, then leave the clean states. */
  function RecordWrite(p: Ptt, page: nat): Outcome<Ptt> {
    var p1 :- AddPageWrite(p, page);
    match p1.pages[page].state
    case CleanStatic => ShiftPage(p1, page, DirtyDirect)
    case CleanDirect => ShiftPage(p1, page, DirtyStatic)
    case _ => Ok(p1)
  }

  function FreePage(p: Ptt, page: nat): Outcome<Ptt> {
    (:- Assert(page in p.pages && p.pages[page].slot < p.capacity);
     var e := p.pages[page];
     var p1 := p.(dirty := if IsDirty(e.state) then p.dirty - 1 else p.dirty,
                  pages := p.pages - {e.base},
                  freeSlots := p.freeSlots + [e.slot]);
     :- Assert(|p1.freeSlots| + |p1.pages| == p1.capacity);
     Ok(p1))
  }

  function SetupPage(p: Ptt, page: nat, st: PageState): Outcome<Ptt> {
    (:- Assert(page !in p.pages);
     :- Assert(p.freeSlots != []);
     var last := |p.freeSlots| - 1;
     var p1 := p.(pages := p.pages[page := Page(st, 0, 0, p.freeSlots[last], page)],
                  freeSlots := p.freeSlots[..last],
                  dirty := if IsDirty(st) then p.dirty + 1 else p.dirty);
     :- Assert(|p1.freeSlots| + |p1.pages| == p1.capacity);
     :- Assert(|p1.pages| <= p1.capacity);
     Ok(p1))
  }

  function Cleaned(st: PageState): PageState {
    match st
    case DirtyDirect => CleanDirect
    case DirtyStatic => CleanStatic
    case _ => st
  }

  function DirtyPages(pages: map<nat, Page>): set<nat> {
    set g | g in pages && IsDirty(pages[g].state)
  }

  function WrittenPages(pages: map<nat, Page>): set<nat> {
    set g | g in pages && pages[g].epochWrites != 0
  }

  /** Ends the epoch: pages become clean, counters and heaps are dropped. */
  function Clear(p: Ptt): Outcome<Ptt> {
    var pages := map g | g in p.pages ::
      p.pages[g].(epochReads := 0, epochWrites := 0, state := Cleaned(p.pages[g].state));
    var dirty := p.dirty - |DirtyPages(p.pages)|;
    :- Assert(dirty == 0);
    Ok(p.(pages := pages, dirty := dirty, nvmPages := map[], dramHeap := [], nvmHeap := [],
          dramFilled := false, nvmFilled := false))
  }

  /** The page record after one more block entry `e`. */
  function Gather(np: NvmPage, e: Entry): NvmPage {
    NvmPage(np.epochReads + e.epochReads, np.epochWrites + e.epochWrites,
            if e.epochWrites != 0 then np.blocks + {e.tag} else np.blocks)
  }

  function PageIn(m: map<nat, NvmPage>, page: nat): NvmPage {
    if page in m then m[page] else NvmPage(0, 0, {})
  }

  /** The loop of InputBlocks over the first `n` entries. */
  function Collect(es: seq<Entry>, n: nat, pageBlocks: Positive): Outcome<map<nat, NvmPage>>
    requires n <= |es|
  {
    if n == 0 then Ok(map[])
    else
      var m :- Collect(es, n - 1, pageBlocks);
      var e := es[n - 1];
      if e.state == Clean || e.state == Free then
        :- Assert(e.epochWrites == 0);
        Ok(m)
      else
        var page := PageNumber(e.tag, pageBlocks);
        var np := Gather(PageIn(m, page), e);
        :- Assert(e.epochWrites != 0 ==> |np.blocks| <= pageBlocks);
        Ok(m[page := np])
  }

  function NvmWritesOf(m: map<nat, NvmPage>): map<nat, nat> {
    map g | g in m :: m[g].epochWrites
  }

  function DramWritesOf(m: map<nat, Page>): map<nat, nat> {
    map g | g in m :: m[g].epochWrites
  }

  /** Heap contents before ordering, in the iteration order `order` of the hash table. */
  function NvmHeapOf(m: map<nat, NvmPage>, order: seq<nat>): seq<NvmStats>
    requires forall g :: g in order ==> g in m
  {
    if order == [] then []
    else
      var g := order[|order| - 1];
      NvmHeapOf(m, order[..|order| - 1]) + [NvmStats(g, |m[g].blocks|, m[g].epochWrites)]
  }

  function DramHeapOf(m: map<nat, Page>, order: seq<nat>): seq<DramStats>
    requires forall g :: g in order ==> g in m
  {
    if order == [] then []
    else
      var g := order[|order| - 1];
      DramHeapOf(m, order[..|order| - 1]) + [DramStats(g, m[g].state, m[g].epochWrites)]
  }

  /** Both heaps filled along the hash tables' iteration orders, and the writes totalled. */
  ghost function Filled(p: Ptt, m: map<nat, NvmPage>, nvmOrder: seq<nat>, dramOrder: seq<nat>): Ptt
    requires Listing(nvmOrder, m.Keys) && Listing(dramOrder, p.pages.Keys)
  {
    p.(nvmPages := m,
       nvmHeap := p.nvmHeap + NvmHeapOf(m, nvmOrder), nvmFilled := true,
       totalNvm := p.totalNvm + SumAlong(NvmWritesOf(m), nvmOrder),
       dramHeap := p.dramHeap + DramHeapOf(p.pages, dramOrder), dramFilled := true,
       totalDram := p.totalDram + SumAlong(DramWritesOf(p.pages), dramOrder))
  }

  /** InputBlocks; `nvmOrder` and `dramOrder` are the hash tables' iteration orders. */
  ghost function InputBlocks(p: Ptt, es: seq<Entry>, nvmOrder: seq<nat>, dramOrder: seq<nat>): Outcome<Ptt> {
    (:- Assert(p.nvmPages == map[]);
     var m :- Collect(es, |es|, p.pageBlocks);
     :- Assert(Listing(nvmOrder, m.Keys) && Listing(dramOrder, p.pages.Keys));
     :- Assert(|WrittenPages(p.pages)| == p.dirty);
     Ok(Filled(p, m, nvmOrder, dramOrder)))
  }

  function Rank(st: PageState): nat {
    match st
    case CleanDirect => 0
    case CleanStatic => 1
    case DirtyDirect => 2
    case DirtyStatic => 3
  }

  /** `operator<` of the two heaps: the heap's front is a maximum of it. */
  predicate NvmBelow(a: NvmStats, b: NvmStats) {
    a.dirtyBlocks < b.dirtyBlocks
  }

  predicate DramBelow(a: DramStats, b: DramStats) {
    if a.state == b.state then a.writes > b.writes else Rank(a.state) > Rank(b.state)
  }

  /** `a` may leave DRAM before `b`: clean pages go before dirty ones, among those direct before static,
      and in one state those with fewer writes first. */
  predicate GoesFirst(a: DramStats, b: DramStats) {
    && (IsDirty(a.state) ==> IsDirty(b.state))
    && ((IsDirty(a.state) <==> IsDirty(b.state)) && IsDirect(b.state) ==> IsDirect(a.state))
    && (a.state == b.state ==> a.writes <= b.writes)
  }

  /** The source's order on the heap, read the other way round. */
  lemma HeapOrder(a: DramStats, b: DramStats)
    ensures !DramBelow(a, b) <==> GoesFirst(a, b)
  {
  }

  /** The first maximum among the first `n` elements. */
  function NvmFront(h: seq<NvmStats>, n: nat): (k: nat)
    requires 0 < n <= |h|
    ensures k < n && forall j :: 0 <= j < n ==> !NvmBelow(h[k], h[j])
  {
    if n == 1 then 0
    else
      var k := NvmFront(h, n - 1);
      if NvmBelow(h[k], h[n - 1]) then n - 1 else k
  }

  function DramFront(h: seq<DramStats>, n: nat): (k: nat)
    requires 0 < n <= |h|
    ensures k < n && forall j :: 0 <= j < n ==> !DramBelow(h[k], h[j])
  {
    if n == 1 then 0
    else
      var k := DramFront(h, n - 1);
      if DramBelow(h[k], h[n - 1]) then n - 1 else k
  }

  function ExtractNvm(p: Ptt): (r: Outcome<Option<(Ptt, NvmStats)>>)
    ensures r.Ok? && r.value.Some? ==> |r.value.value.0.nvmHeap| < |p.nvmHeap|
    ensures r.Ok? && r.value.Some? ==> r.value.value.0.dramHeap == p.dramHeap
  {
    (:- Assert(p.nvmFilled);
     if p.nvmHeap == [] then Ok(None)
     else
       var k := NvmFront(p.nvmHeap, |p.nvmHeap|);
       Ok(Some((p.(nvmHeap := p.nvmHeap[..k] + p.nvmHeap[k + 1..]), p.nvmHeap[k]))))
  }

  function ExtractDram(p: Ptt): (r: Outcome<Option<(Ptt, DramStats)>>)
    ensures r.Ok? && r.value.Some? ==> |r.value.value.0.dramHeap| < |p.dramHeap|
    ensures r.Ok? && r.value.Some? ==> r.value.value.0.nvmHeap == p.nvmHeap
  {
    (:- Assert(p.dramFilled);
     if p.dramHeap == [] then Ok(None)
     else
       var k := DramFront(p.dramHeap, |p.dramHeap|);
       Ok(Some((p.(dramHeap := p.dramHeap[..k] + p.dramHeap[k + 1..]), p.dramHeap[k]))))
  }
}
