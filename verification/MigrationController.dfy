/** The page table and migration statistics as an object. Hash tables are visited in some order,
    which the methods report as ghost results. */
module MigrationControllers {
  import opened Outcomes
  import opened Lists
  import opened Sums
  import opened TranslationTables
  import opened PageTables
  import Spec = PageTables

  /** Every prefix of a successful collection is successful. */
  lemma {:induction false} CollectPrefix(es: seq<Entry>, n: nat, m: nat, k: Positive)
    requires n <= m <= |es| && Collect(es, m, k).Ok?
    ensures Collect(es, n, k).Ok?
    decreases m
  {
    if n < m {
      CollectPrefix(es, n, m - 1, k);
    }
  }

  /** What one more entry does to the collection. */
  lemma CollectNext(es: seq<Entry>, i: nat, k: Positive)
    requires i < |es| && Collect(es, |es|, k).Ok?
    ensures Collect(es, i, k).Ok? && Collect(es, i + 1, k).Ok?
    ensures var e, m := es[i], Collect(es, i, k).value;
      if e.state == Clean || e.state == Free then e.epochWrites == 0 && Collect(es, i + 1, k).value == m
      else var page := PageNumber(e.tag, k); Collect(es, i + 1, k).value == m[page := Gather(PageIn(m, page), e)]
  {
    CollectPrefix(es, i + 1, |es|, k);
  }

  lemma {:induction false} HeapExtend(m: map<nat, NvmPage>, order: seq<nat>, g: nat)
    requires g in m && forall h :: h in order ==> h in m
    ensures NvmHeapOf(m, order + [g]) == NvmHeapOf(m, order) + [NvmStats(g, |m[g].blocks|, m[g].epochWrites)]
    ensures SumAlong(NvmWritesOf(m), order + [g]) == SumAlong(NvmWritesOf(m), order) + m[g].epochWrites
  {
    assert (order + [g])[..|order|] == order;
  }

  lemma {:induction false} DramHeapExtend(m: map<nat, Page>, order: seq<nat>, g: nat)
    requires g in m && forall h :: h in order ==> h in m
    ensures DramHeapOf(m, order + [g]) == DramHeapOf(m, order) + [DramStats(g, m[g].state, m[g].epochWrites)]
    ensures SumAlong(DramWritesOf(m), order + [g]) == SumAlong(DramWritesOf(m), order) + m[g].epochWrites
  {
    assert (order + [g])[..|order|] == order;
  }

  /** A page at the start of an epoch. */
  function Renewed(e: Page): Page {
    e.(epochReads := 0, epochWrites := 0, state := Cleaned(e.state))
  }

  /** All pages but those in `rest` renewed. */
  ghost function RenewedBut(m: map<nat, Page>, rest: set<nat>): map<nat, Page> {
    map g | g in m :: if g in rest then m[g] else Renewed(m[g])
  }

  /** How many elements of `order` are in `s`. */
  ghost function Hits(order: seq<nat>, s: set<nat>): nat {
    if order == [] then 0
    else Hits(order[..|order| - 1], s) + if order[|order| - 1] in s then 1 else 0
  }

  lemma {:induction false} HitsExtend(order: seq<nat>, s: set<nat>, g: nat)
    ensures Hits(order + [g], s) == Hits(order, s) + if g in s then 1 else 0
  {
    assert (order + [g])[..|order|] == order;
  }

  lemma {:induction false} HitsLess(order: seq<nat>, s: set<nat>, g: nat)
    requires g !in order
    ensures Hits(order, s - {g}) == Hits(order, s)
  {
    if order != [] {
      HitsLess(order[..|order| - 1], s, g);
    }
  }

  /** A list of a superset meets each element of `s` once. */
  lemma {:induction false} HitsAll(order: seq<nat>, s: set<nat>)
    requires NoDup(order) && forall g :: g in s ==> g in order
    ensures Hits(order, s) == |s|
  {
    if order != [] {
      var front, g := order[..|order| - 1], order[|order| - 1];
      assert order == front + [g] && g !in front;
      HitsAll(front, s - {g});
      HitsLess(front, s, g);
    }
  }

  /** InputBlocks, once the pages are collected and both hash tables have been visited. */
  lemma {:induction false} InputFold(p: Ptt, es: seq<Entry>, m: map<nat, NvmPage>, nvmOrder: seq<nat>, dramOrder: seq<nat>)
    requires p.nvmPages == map[] && Collect(es, |es|, p.pageBlocks) == Ok(m) && |WrittenPages(p.pages)| == p.dirty
    requires Listing(nvmOrder, m.Keys) && Listing(dramOrder, p.pages.Keys)
    ensures Spec.InputBlocks(p, es, nvmOrder, dramOrder) == Ok(Filled(p, m, nvmOrder, dramOrder))
  {
  }

  class MigrationController {
    const pageBlocks: Positive
    const length: nat
    const capacity: nat
    var dirty: int
    var freeSlots: seq<nat>
    var pages: map<nat, Page>
    var nvmPages: map<nat, NvmPage>
    var dramHeap: seq<DramStats>
    var nvmHeap: seq<NvmStats>
    var dramFilled: bool
    var nvmFilled: bool
    var totalNvm: nat
    var totalDram: nat

    /** The page table this object represents. */
    ghost function Abs(): Ptt
      reads this
    {
      Ptt(pageBlocks, length, capacity, dirty, freeSlots, pages, nvmPages, dramHeap, nvmHeap,
          dramFilled, nvmFilled, totalNvm, totalDram)
    }

    constructor (pageBlocks: Positive, length: nat)
      ensures Abs() == Empty(pageBlocks, length)
    {
      this.pageBlocks, this.length, capacity := pageBlocks, length, length + length / 16;
      dirty, freeSlots, pages, nvmPages, dramHeap, nvmHeap := 0, [], map[], map[], [], [];
      dramFilled, nvmFilled, totalNvm, totalDram := false, false, 0, 0;
      new;
      for i := 0 to capacity
        invariant Abs() == Empty(pageBlocks, length).(freeSlots := Iota(i))
      {
        freeSlots := freeSlots + [i];
      }
    }

    function LookupPage(tag: nat): (r: Option<Page>)
      reads this
      ensures r.Some? <==> PageNumber(tag, pageBlocks) in Abs().pages
      ensures r.Some? ==> r.value == Abs().pages[PageNumber(tag, pageBlocks)]
    {
      var page := PageNumber(tag, pageBlocks);
      if page in pages then Some(pages[page]) else None
    }

    method AddPageRead(page: nat)
      requires Spec.AddPageRead(Abs(), page).Ok?
      modifies this
      ensures Spec.AddPageRead(old(Abs()), page) == Ok(Abs())
    {
      pages := pages[page := pages[page].(epochReads := pages[page].epochReads + 1)];
    }

    method AddPageWrite(page: nat)
      requires Spec.AddPageWrite(Abs(), page).Ok?
      modifies this
      ensures Spec.AddPageWrite(old(Abs()), page) == Ok(Abs())
    {
      pages := pages[page := pages[page].(epochWrites := pages[page].epochWrites + 1)];
    }

    method ShiftState(page: nat, st: PageState)
      requires ShiftPage(Abs(), page, st).Ok?
      modifies this
      ensures ShiftPage(old(Abs()), page, st) == Ok(Abs())
    {
      pages := pages[page := pages[page].(state := st)];
      if IsDirty(st) {
        dirty := dirty + 1;
      }
    }

    method Free(page: nat)
      requires FreePage(Abs(), page).Ok?
      modifies this
      ensures FreePage(old(Abs()), page) == Ok(Abs())
    {
      var e := pages[page];
      if IsDirty(e.state) {
        dirty := dirty - 1;
      }
      pages := pages - {e.base};
      freeSlots := freeSlots + [e.slot];
      assert |freeSlots| + |pages| == capacity;
    }

    method Setup(page: nat, st: PageState)
      requires SetupPage(Abs(), page, st).Ok?
      modifies this
      ensures SetupPage(old(Abs()), page, st) == Ok(Abs())
    {
      var slot := freeSlots[|freeSlots| - 1];
      freeSlots := freeSlots[..|freeSlots| - 1];
      pages := pages[page := Page(st, 0, 0, slot, page)];
      assert |freeSlots| + |pages| == capacity;
      if IsDirty(st) {
        dirty := dirty + 1;
      }
      assert |pages| <= capacity;
    }

    /** Gathers the written blocks by page and fills both heaps. */
    method InputBlocks(blocks: array<Entry>) returns (ghost nvmOrder: seq<nat>, ghost dramOrder: seq<nat>)
      requires nvmPages == map[] && Collect(blocks[..], blocks.Length, pageBlocks).Ok?
      requires |WrittenPages(pages)| == dirty
      modifies this
      ensures Spec.InputBlocks(old(Abs()), blocks[..], nvmOrder, dramOrder) == Ok(Abs())
    {
      GatherPages(blocks);
      nvmOrder := FillNvmPageHeap();
      dramOrder := FillDramPageHeap();
      InputFold(old(Abs()), blocks[..], nvmPages, nvmOrder, dramOrder);
    }

    /** InputBlocks' loop over the translation entries. */
    method GatherPages(blocks: array<Entry>)
      requires nvmPages == map[] && Collect(blocks[..], blocks.Length, pageBlocks).Ok?
      modifies this`nvmPages
      ensures Collect(blocks[..], blocks.Length, pageBlocks) == Ok(nvmPages)
    {
      ghost var es := blocks[..];
      for i := 0 to blocks.Length
        invariant Collect(es, i, pageBlocks) == Ok(nvmPages)
      {
        var e := blocks[i];
        CollectNext(es, i, pageBlocks);
        if e.state == Clean || e.state == TranslationTables.Free {
          assert e.epochWrites == 0;
        } else {
          var page := PageNumber(e.tag, pageBlocks);
          nvmPages := nvmPages[page := Gather(PageIn(nvmPages, page), e)];
        }
      }
    }

    method FillNvmPageHeap() returns (ghost order: seq<nat>)
      modifies this`nvmHeap, this`totalNvm, this`nvmFilled
      ensures Listing(order, nvmPages.Keys)
      ensures nvmHeap == old(nvmHeap) + NvmHeapOf(nvmPages, order) && nvmFilled
      ensures totalNvm == old(totalNvm) + SumAlong(NvmWritesOf(nvmPages), order)
    {
      order := [];
      var m := nvmPages;
      var rest := m.Keys;
      while rest != {}
        modifies this`nvmHeap, this`totalNvm
        invariant rest <= m.Keys && Listing(order, m.Keys - rest)
        invariant nvmHeap == old(nvmHeap) + NvmHeapOf(m, order)
        invariant totalNvm == old(totalNvm) + SumAlong(NvmWritesOf(m), order)
        decreases rest
      {
        var g :| g in rest;
        AppendListing(order, m.Keys - rest, g);
        HeapExtend(m, order, g);
        nvmHeap := nvmHeap + [NvmStats(g, |m[g].blocks|, m[g].epochWrites)];
        totalNvm := totalNvm + m[g].epochWrites;
        order := order + [g];
        assert m.Keys - (rest - {g}) == m.Keys - rest + {g};
        rest := rest - {g};
      }
      nvmFilled := true;
    }

    method FillDramPageHeap() returns (ghost order: seq<nat>)
      requires |WrittenPages(pages)| == dirty
      modifies this`dramHeap, this`totalDram, this`dramFilled
      ensures Listing(order, pages.Keys)
      ensures dramHeap == old(dramHeap) + DramHeapOf(pages, order) && dramFilled
      ensures totalDram == old(totalDram) + SumAlong(DramWritesOf(pages), order)
    {
      order := [];
      var dirts := 0;
      var m := pages;
      var rest := m.Keys;
      while rest != {}
        modifies this`dramHeap, this`totalDram
        invariant rest <= m.Keys && Listing(order, m.Keys - rest)
        invariant dirts == Hits(order, WrittenPages(m))
        invariant dramHeap == old(dramHeap) + DramHeapOf(m, order)
        invariant totalDram == old(totalDram) + SumAlong(DramWritesOf(m), order)
        decreases rest
      {
        var g :| g in rest;
        AppendListing(order, m.Keys - rest, g);
        DramHeapExtend(m, order, g);
        HitsExtend(order, WrittenPages(m), g);
        dramHeap := dramHeap + [DramStats(g, m[g].state, m[g].epochWrites)];
        totalDram := totalDram + m[g].epochWrites;
        dirts := dirts + if m[g].epochWrites != 0 then 1 else 0;
        order := order + [g];
        assert m.Keys - (rest - {g}) == m.Keys - rest + {g};
        rest := rest - {g};
      }
      HitsAll(order, WrittenPages(m));
      assert dirts == dirty;
      dramFilled := true;
    }

    method ExtractNvmPage() returns (r: Option<NvmStats>)
      requires ExtractNvm(Abs()).Ok?
      modifies this
      ensures r.None? ==> ExtractNvm(old(Abs())) == Ok(None) && Abs() == old(Abs())
      ensures r.Some? ==> ExtractNvm(old(Abs())) == Ok(Some((Abs(), r.value)))
      ensures r.None? <==> old(nvmHeap) == []
      ensures r.Some? ==> r.value in old(nvmHeap) && multiset(nvmHeap) == multiset(old(nvmHeap)) - multiset{r.value}
      ensures r.Some? ==> forall e :: e in old(nvmHeap) ==> e.dirtyBlocks <= r.value.dirtyBlocks
    {
      if nvmHeap == [] {
        return None;
      }
      var k := NvmFront(nvmHeap, |nvmHeap|);
      r := Some(nvmHeap[k]);
      TakenOut(nvmHeap, k);
      nvmHeap := nvmHeap[..k] + nvmHeap[k + 1..];
    }

    method ExtractDramPage() returns (r: Option<DramStats>)
      requires ExtractDram(Abs()).Ok?
      modifies this
      ensures r.None? ==> ExtractDram(old(Abs())) == Ok(None) && Abs() == old(Abs())
      ensures r.Some? ==> ExtractDram(old(Abs())) == Ok(Some((Abs(), r.value)))
      ensures r.None? <==> old(dramHeap) == []
      ensures r.Some? ==> r.value in old(dramHeap) && multiset(dramHeap) == multiset(old(dramHeap)) - multiset{r.value}
      ensures r.Some? ==> forall e :: e in old(dramHeap) ==>
        && (IsDirty(r.value.state) ==> IsDirty(e.state))
        && ((IsDirty(r.value.state) <==> IsDirty(e.state)) && IsDirect(e.state) ==> IsDirect(r.value.state))
        && (r.value.state == e.state ==> r.value.writes <= e.writes)
    {
      if dramHeap == [] {
        return None;
      }
      var k := DramFront(dramHeap, |dramHeap|);
      r := Some(dramHeap[k]);
      TakenOut(dramHeap, k);
      dramHeap := dramHeap[..k] + dramHeap[k + 1..];
    }

    /** Cleans every page and drops what the epoch collected. */
    method Clear()
      requires Spec.Clear(Abs()).Ok?
      modifies this
      ensures Spec.Clear(old(Abs())) == Ok(Abs())
    {
      CleanPages();
      assert pages == Spec.Clear(old(Abs())).value.pages;
      assert dirty == 0;
      nvmPages, dramHeap, nvmHeap, dramFilled, nvmFilled := map[], [], [], false, false;
    }

    /** Clear's loop over the resident pages. */
    method CleanPages()
      modifies this`pages, this`dirty
      ensures pages == RenewedBut(old(pages), {}) && dirty == old(dirty) - |DirtyPages(old(pages))|
    {
      ghost var was := pages;
      ghost var order := [];
      var rest := pages.Keys;
      while rest != {}
        invariant rest <= was.Keys && Listing(order, was.Keys - rest)
        invariant pages == RenewedBut(was, rest) && dirty == old(dirty) - Hits(order, DirtyPages(was))
        decreases rest
      {
        var g :| g in rest;
        AppendListing(order, was.Keys - rest, g);
        HitsExtend(order, DirtyPages(was), g);
        if IsDirty(pages[g].state) {
          dirty := dirty - 1;
        }
        pages := pages[g := Renewed(pages[g])];
        order := order + [g];
        assert was.Keys - (rest - {g}) == was.Keys - rest + {g};
        rest := rest - {g};
      }
      HitsAll(order, DirtyPages(was));
    }
  }
}
