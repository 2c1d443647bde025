/** Page migration between NVM and DRAM. */
module Migration {
  import opened Outcomes
  import opened Lists
  import opened TranslationTables
  import opened PageTables
  import opened PageTableInvariants
  import opened Controllers
  import opened ControllerInvariants
  import opened Translation
  import opened EntryMoves
  import opened Retention
  import opened Stores

  ghost predicate NotLoan(s: State, i: nat) {
    i < |s.att.entries| ==> s.att.entries[i].state != Loan
  }

  ghost predicate NoLoan(s: State) {
    forall i :: NotLoan(s, i)
  }

  // ----- loans -----

  ghost predicate Loans(s: State, q: seq<nat>) {
    NoDup(q) && forall k :: 0 <= k < |q| ==> Live(s, q[k], Loan)
  }

  /** The entries after revoking the loans in `q`. */
  ghost predicate Revoked(s: State, t: State, q: seq<nat>) {
    && |t.att.entries| == |s.att.entries|
    && forall j :: 0 <= j < |s.att.entries| ==>
         t.att.entries[j] == if j in q then s.att.entries[j].(state := Free) else s.att.entries[j]
  }

  lemma RevokeFirst(s: State, q: seq<nat>) returns (m: State)
    requires Inv(s) && !s.ckpt && Loans(s, q) && q != []
    ensures FreeLoan(s, q[0], true) == Ok(m) && Loans(m, q[1..]) && Revoked(s, m, [q[0]])
    ensures Through(s, m, s.phyBlocks) && m.stats == s.stats
  {
    FreeLoanThrough(s, q[0], true);
    FreeLoanStep(s, q[0], true);
    m := FreeLoan(s, q[0], true).value;
    forall k | 0 <= k < |q| - 1 ensures Live(m, q[1..][k], Loan) {
      assert q[1..][k] == q[k + 1] && q[k + 1] != q[0] && Live(s, q[k + 1], Loan);
    }
  }

  /** LoanRevoker frees each loan once, copying it home, and touches no other entry. */
  lemma {:induction false} RevokeOk(s: State, q: seq<nat>) returns (t: State)
    requires Inv(s) && !s.ckpt && Loans(s, q)
    ensures RevokeLoans(s, q) == Ok(t)
    ensures Through(s, t, s.phyBlocks) && t.stats == s.stats && Revoked(s, t, q)
    decreases |q|
  {
    if q == [] {
      t := s;
      StatsThrough(s, s);
    } else {
      var m := RevokeFirst(s, q);
      t := RevokeOk(m, q[1..]);
      ThroughTrans(s, m, t, s.phyBlocks);
      assert forall j :: j in q <==> j == q[0] || j in q[1..];
    }
  }

  lemma {:induction false} RevokeAllOk(s: State)
    requires Inv(s) && !s.ckpt
    ensures var q := Queue(s.att, Loan);
      && RevokeLoans(s, q).Ok?
      && var t := RevokeLoans(s, q).value;
      && Through(s, t, s.phyBlocks) && t.stats == s.stats && NoLoan(t) && Queue(t.att, Loan) == []
  {
    var q := Queue(s.att, Loan);
    LoanQueue(s);
    var t := RevokeOk(s, q);
    forall i ensures NotLoan(t, i) {}
    EmptyLoanQueue(t);
  }

  lemma LoanQueue(s: State)
    requires TableOk(s.att)
    ensures Loans(s, Queue(s.att, Loan))
    ensures forall j :: 0 <= j < |s.att.entries| ==> (j in Queue(s.att, Loan) <==> s.att.entries[j].state == Loan)
  {
    var q := Queue(s.att, Loan);
    assert Listing(q, EntriesIn(s.att.entries, 1));
    forall k | 0 <= k < |q| ensures Live(s, q[k], Loan) {
      assert q[k] in EntriesIn(s.att.entries, 1);
    }
  }

  lemma EmptyLoanQueue(t: State)
    requires TableOk(t.att) && NoLoan(t)
    ensures Queue(t.att, Loan) == []
  {
    assert Listing(t.att.queues[1], EntriesIn(t.att.entries, 1));
    forall i ensures i !in EntriesIn(t.att.entries, 1) {
      assert NotLoan(t, i);
    }
    ListingCardinality(t.att.queues[1], EntriesIn(t.att.entries, 1));
    assert EntriesIn(t.att.entries, 1) == {};
  }

  // ----- moving a page's blocks home -----

  ghost predicate Avoids(dom: set<nat>, x: nat, n: nat) {
    forall g :: g in dom ==> !(x <= g < x + n)
  }

  /** Images that cover none of the `n` blocks from `x` stay retained. */
  ghost predicate KeepsBut(s: State, t: State, x: nat, n: nat) {
    forall image, dom :: Avoids(dom, x, n) && Retained(s, image, dom, Current) ==> Retained(t, image, dom, Current)
  }

  lemma MovesKeepsBut(s: State, t: State, x: nat)
    requires Core(s) && Moves(s, t, x) && x < s.phyBlocks
    ensures KeepsBut(s, t, x, 1)
  {
    forall image, dom | Avoids(dom, x, 1) && Retained(s, image, dom, Current) ensures Retained(t, image, dom, Current) {
      var loc :| Held(s, image, dom, loc, Current);
      forall g ensures HeldAt(t, image, dom, loc, Current, g) {
        assert HeldAt(s, image, dom, loc, Current, g);
        if g != x {
          HeldOther(s, t, x, image, dom, loc, Current, g);
        }
      }
      assert Held(t, image, dom, loc, Current);
    }
  }

  /** `t` follows `s` while the `n` blocks from `x` are moved home. */
  ghost predicate Homing(s: State, t: State, x: nat, n: nat) {
    && Inv(t) && !t.ckpt && NoLoan(t)
    && t == s.(att := t.att, nvm := t.nvm, dram := t.dram, mem := t.mem)
    && |t.att.entries| == |s.att.entries| && t.nvm.base == s.nvm.base
    && s.nvm.backup0 <= t.nvm.backup0 && s.nvm.backup1 <= t.nvm.backup1
    && (forall g :: SameView(s, t, g)) && KeepsBut(s, t, x, n) && KeepsAbsent(s, t)
    && NvmWrites(t) == NvmWrites(s)
  }

  lemma HomingTrans(s: State, t: State, u: State, x: nat, m: nat, n: nat)
    requires Homing(s, t, x, m) && Homing(t, u, x + m, n)
    ensures Homing(s, u, x, m + n)
  {
    forall g ensures SameView(s, u, g) {
      assert SameView(s, t, g) && SameView(t, u, g);
    }
    forall image, dom | Avoids(dom, x, m + n) && Retained(s, image, dom, Current)
      ensures Retained(u, image, dom, Current)
    {
      assert Avoids(dom, x, m) && Avoids(dom, x + m, n);
    }
  }

  lemma MovedHoming(s: State, t: State, x: nat, i: nat)
    requires Inv(s) && !s.ckpt && NoLoan(s) && Inv(t)
    requires i < |s.att.entries| && s.att.entries[i].state != Free && s.att.entries[i].tag == x
    requires Moved(s, t, x, Free, x, true)
    requires t.att.entries == s.att.entries[i := s.att.entries[i].(state := Free)]
    ensures Homing(s, t, x, 1) && x !in t.att.index
  {
    MovesKeepsBut(s, t, x);
    forall g: nat ensures SameView(s, t, g) {
      if g < s.phyBlocks && g != x {
        MovesView(s, t, x, g);
      }
    }
    forall j ensures NotLoan(t, j) {
      assert NotLoan(s, j);
    }
    forall g | g !in s.att.index ensures g !in t.att.index {
      LiveTag(s, g);
      LiveTag(t, g);
    }
    LiveTag(t, x);
    EntryWritesSame(s.att.entries, t.att.entries, |s.att.entries|);
  }

  lemma SelfHoming(s: State, t: State, x: nat, n: nat)
    requires Inv(s) && !s.ckpt && NoLoan(s) && t == s.(att := t.att)
    requires t.att.entries == s.att.entries && t.att.index == s.att.index && TableOk(t.att)
    ensures Homing(s, t, x, n)
  {
    ThroughSame(s, t);
    forall j ensures NotLoan(t, j) {
      assert NotLoan(s, j);
    }
  }

  lemma SendHomeOk(s: State, i: nat)
    requires Inv(s) && !s.ckpt && NoLoan(s) && i < |s.att.entries| && s.att.entries[i].state != Free
    ensures SendHome(s, i).Ok?
    ensures var x := s.att.entries[i].tag;
      Homing(s, SendHome(s, i).value, x, 1) && x !in SendHome(s, i).value.att.index
  {
    assert NotLoan(s, i);
    match s.att.entries[i].state {
      case Clean => HomeFromNvm(s, i);
      case Dirty => HomeFromNvm(s, i);
      case Stained => HomeFromDram(s, i);
      case Temp => HomeFromDram(s, i);
      case Hidden => ShiftToFree(s, i);
      case Loan =>
      case Free =>
    }
    MovedHoming(s, SendHome(s, i).value, s.att.entries[i].tag, i);
  }

  lemma EvictShape(s: State, x: nat)
    requires Lookup(s.att, x).Ok?
    ensures var m := s.(att := Lookup(s.att, x).value.0);
      EvictBlock(s, x) == if x in s.att.index then SendHome(m, s.att.index[x]) else Ok(m)
  {
  }

  lemma EvictBlockOk(s: State, x: nat)
    requires Inv(s) && !s.ckpt && NoLoan(s)
    ensures EvictBlock(s, x).Ok?
    ensures Homing(s, EvictBlock(s, x).value, x, 1) && x !in EvictBlock(s, x).value.att.index
  {
    LookupOk(s.att, x);
    EvictShape(s, x);
    LiveTag(s, x);
    var m := s.(att := Lookup(s.att, x).value.0);
    if x in s.att.index {
      SelfHoming(s, m, x, 0);
      SendHomeOk(m, s.att.index[x]);
      HomingTrans(s, m, EvictBlock(s, x).value, x, 0, 1);
    } else {
      SelfHoming(s, m, x, 1);
    }
  }

  /** MigrateNVM's loop leaves no entry in the page it moves. */
  lemma {:induction false} EvictBlocksOk(s: State, x: nat, left: nat)
    requires Inv(s) && !s.ckpt && NoLoan(s)
    ensures EvictBlocks(s, x, left).Ok?
    ensures var t := EvictBlocks(s, x, left).value;
      Homing(s, t, x, left) && Vacated(t, x, left)
    decreases left
  {
    if left == 0 {
      SelfHoming(s, s, x, 0);
    } else {
      EvictBlockOk(s, x);
      var m := EvictBlock(s, x).value;
      EvictBlocksOk(m, x + 1, left - 1);
      var t := EvictBlocks(m, x + 1, left - 1).value;
      assert EvictBlocks(s, x, left) == Ok(t) by {
        EvictBlocksUnfold(s, m, x, left);
      }
      HomingTrans(s, m, t, x, 1, left - 1);
    }
  }

  ghost predicate Vacated(t: State, x: nat, n: nat) {
    forall g :: x <= g < x + n ==> g !in t.att.index
  }

  lemma EvictBlocksUnfold(s: State, m: State, x: nat, left: nat)
    requires left > 0 && EvictBlock(s, x) == Ok(m)
    ensures EvictBlocks(s, x, left) == EvictBlocks(m, x + 1, left - 1)
  {
  }

  // ----- moving a page -----

  lemma MulLarge(d: int, k: Positive)
    ensures d >= 1 ==> d * k >= k
    ensures d <= -1 ==> d * k <= 0 - k
  {
  }

  lemma PageRange(tag: nat, k: Positive, g: nat)
    ensures PageNumber(tag, k) == g <==> FirstBlock(g, k) <= tag < FirstBlock(g, k) + k
  {
    var d := tag / k - g;
    MulLarge(d, k);
    assert tag == (tag / k) * k + tag % k;
    assert d * k == (tag / k) * k - g * k;
  }

  ghost predicate Outside(dom: set<nat>, t: State) {
    forall g :: g in dom ==> !IsDram(t, g)
  }

  /** Images of blocks that are outside DRAM afterwards stay retained. */
  ghost predicate KeepsOut(s: State, t: State) {
    forall image, dom :: Retained(s, image, dom, Current) && Outside(dom, t) ==> Retained(t, image, dom, Current)
  }

  lemma InvPages(s: State, t: State)
    requires Inv(s) && t == s.(ptt := t.ptt, toDram := t.toDram, toNvm := t.toNvm) && PttOk(t.ptt)
    requires t.ptt.pageBlocks == s.ptt.pageBlocks && Exclusive(t)
    ensures Inv(t) && (forall g: nat :: Place(t, g) == Place(s, g) && SameView(s, t, g))
    ensures KeepsOut(s, t)
  {
    OwnedSame(s, t);
    forall g: nat ensures Place(t, g) == Place(s, g) && SameView(s, t, g) {
      if g < s.phyBlocks {
        PlaceInside(s, g);
      }
    }
    forall image, dom | Retained(s, image, dom, Current) && Outside(dom, t) ensures Retained(t, image, dom, Current) {
      var loc :| Held(s, image, dom, loc, Current);
      forall g ensures HeldAt(t, image, dom, loc, Current, g) {
        assert HeldAt(s, image, dom, loc, Current, g);
      }
      assert Held(t, image, dom, loc, Current);
    }
  }

  /** The state parts a migration may change. */
  ghost predicate SamePlant(s: State, t: State) {
    && t == s.(att := t.att, nvm := t.nvm, dram := t.dram, mem := t.mem, ptt := t.ptt,
               toDram := t.toDram, toNvm := t.toNvm)
    && |t.att.entries| == |s.att.entries| && t.nvm.base == s.nvm.base
    && s.nvm.backup0 <= t.nvm.backup0 && s.nvm.backup1 <= t.nvm.backup1
    && t.ptt == s.ptt.(pages := t.ptt.pages, dirty := t.ptt.dirty, freeSlots := t.ptt.freeSlots,
                       nvmHeap := t.ptt.nvmHeap, dramHeap := t.ptt.dramHeap)
  }

  ghost predicate PageMoved(s: State, t: State) {
    && Inv(t) && !t.ckpt && NoLoan(t) && SamePlant(s, t)
    && (forall g :: SameView(s, t, g)) && KeepsOut(s, t)
    && NvmWrites(t) == NvmWrites(s)
  }

  lemma MigrateDramOk(s: State, d: DramStats)
    requires Inv(s) && !s.ckpt && NoLoan(s) && d.page in s.ptt.pages
    ensures MigrateDram(s, d).Ok?
    ensures var t := MigrateDram(s, d).value;
      && PageMoved(s, t) && t.ptt.pages.Keys == s.ptt.pages.Keys - {d.page} && |t.ptt.pages| == |s.ptt.pages| - 1
      && t.ptt.nvmHeap == s.ptt.nvmHeap && t.ptt.dramHeap == s.ptt.dramHeap
      && t.toNvm == s.toNvm && t.toDram == s.toDram && t.att == s.att
  {
    FreePageOk(s.ptt, d.page);
    var t := MigrateDram(s, d).value;
    assert t.ptt.pages.Keys == s.ptt.pages.Keys - {d.page};
    forall i ensures SideOk(t, i) && NotLoan(t, i) {
      assert SideOk(s, i) && NotLoan(s, i);
    }
    InvPages(s, t);
  }

  lemma PageSettled(s: State, t: State, page: nat)
    requires Exclusive(s) && NoLoan(s) && TableOk(s.att) && SameEntries(s, t)
    requires t.ptt.pageBlocks == s.ptt.pageBlocks && t.ptt.pages.Keys == s.ptt.pages.Keys + {page}
    requires Vacated(s, FirstBlock(page, s.ptt.pageBlocks), s.ptt.pageBlocks)
    ensures Exclusive(t) && NoLoan(t)
  {
    forall i: nat ensures SideOk(t, i) && NotLoan(t, i) {
      assert SideOk(s, i) && NotLoan(s, i) && Indexed(s.att, i);
      if i < |s.att.entries| {
        PageRange(s.att.entries[i].tag, s.ptt.pageBlocks, page);
      }
    }
  }

  lemma {:induction false} MigrateNvmUnfold(s: State, n: NvmStats, m: State, p: Ptt, k: Positive, x: nat, st: PageState)
    requires k == s.ptt.pageBlocks && x == FirstBlock(n.page, k)
    requires st == if 2 * n.dirtyBlocks > k then CleanStatic else CleanDirect
    requires EvictBlocks(s, x, k) == Ok(m) && SetupPage(m.ptt, n.page, st) == Ok(p)
    ensures MigrateNvm(s, n) == Ok(m.(ptt := p, toDram := m.toDram + 1))
  {
  }

  /** From the page's blocks at home to the page in DRAM. */
  lemma PageArrives(s: State, m: State, t: State, x: nat, page: nat)
    requires Homing(s, m, x, s.ptt.pageBlocks) && Vacated(m, x, s.ptt.pageBlocks) && x == FirstBlock(page, s.ptt.pageBlocks)
    requires t == m.(ptt := t.ptt, toDram := t.toDram) && PttOk(t.ptt)
    requires t.ptt == s.ptt.(pages := t.ptt.pages, freeSlots := t.ptt.freeSlots)
    requires t.ptt.pages.Keys == s.ptt.pages.Keys + {page}
    ensures PageMoved(s, t)
  {
    PageSettled(m, t, page);
    InvPages(m, t);
    forall g ensures SameView(s, t, g) {
      assert SameView(s, m, g) && SameView(m, t, g);
    }
    forall image, dom | Retained(s, image, dom, Current) && Outside(dom, t) ensures Retained(t, image, dom, Current) {
      OutsidePage(dom, t, page);
    }
  }

  lemma MigrateNvmOk(s: State, n: NvmStats)
    requires Inv(s) && !s.ckpt && NoLoan(s) && n.page !in s.ptt.pages && |s.ptt.pages| < s.ptt.capacity
    ensures MigrateNvm(s, n).Ok?
    ensures var t := MigrateNvm(s, n).value;
      && PageMoved(s, t) && t.ptt.pages.Keys == s.ptt.pages.Keys + {n.page} && |t.ptt.pages| == |s.ptt.pages| + 1
      && t.ptt.nvmHeap == s.ptt.nvmHeap && t.ptt.dramHeap == s.ptt.dramHeap && t.toNvm == s.toNvm
      && Vacated(t, FirstBlock(n.page, s.ptt.pageBlocks), s.ptt.pageBlocks)
  {
    var k := s.ptt.pageBlocks;
    var x := FirstBlock(n.page, k);
    var st := if 2 * n.dirtyBlocks > k then CleanStatic else CleanDirect;
    EvictBlocksOk(s, x, k);
    var p := SetupPageOk(s.ptt, n.page, st);
    var m := EvictBlocks(s, x, k).value;
    MigrateNvmUnfold(s, n, m, p, k, x, st);
    PageArrives(s, m, m.(ptt := p, toDram := m.toDram + 1), x, n.page);
  }

  lemma OutsidePage(dom: set<nat>, t: State, page: nat)
    requires Outside(dom, t) && page in t.ptt.pages
    ensures Avoids(dom, FirstBlock(page, t.ptt.pageBlocks), t.ptt.pageBlocks)
  {
    forall g | g in dom ensures !(FirstBlock(page, t.ptt.pageBlocks) <= g < FirstBlock(page, t.ptt.pageBlocks) + t.ptt.pageBlocks) {
      PageRange(g, t.ptt.pageBlocks, page);
    }
  }

  // ----- heaps -----

  lemma {:induction false} DramHeapAt(h: seq<DramStats>)
    ensures |DramHeapPages(h)| == |h| && forall k :: 0 <= k < |h| ==> DramHeapPages(h)[k] == h[k].page
  {
    if h != [] {
      DramHeapAt(h[..|h| - 1]);
    }
  }

  lemma {:induction false} NvmHeapAt(h: seq<NvmStats>)
    ensures |NvmHeapPages(h)| == |h| && forall k :: 0 <= k < |h| ==> NvmHeapPages(h)[k] == h[k].page
  {
    if h != [] {
      NvmHeapAt(h[..|h| - 1]);
    }
  }

  /** Distinct pages wait in each heap: those to leave DRAM are in it, those to enter are not. */
  ghost predicate HeapsOk(p: Ptt) {
    && NoDup(NvmHeapPages(p.nvmHeap)) && (forall g :: g in NvmHeapPages(p.nvmHeap) ==> g !in p.pages)
    && NoDup(DramHeapPages(p.dramHeap)) && (forall g :: g in DramHeapPages(p.dramHeap) ==> g in p.pages)
    && p.nvmFilled && p.dramFilled
  }

  /** `w` is `v` with the element at `k` removed. */
  ghost predicate Dropped(v: seq<nat>, w: seq<nat>, k: nat) {
    k < |v| && w == v[..k] + v[k + 1..]
  }

  lemma DroppedAt(v: seq<nat>, w: seq<nat>, k: nat)
    requires k < |v| && |w| == |v| - 1
    requires forall j :: 0 <= j < |w| ==> w[j] == v[if j < k then j else j + 1]
    ensures Dropped(v, w, k)
  {
  }

  lemma DroppedMembers(v: seq<nat>, w: seq<nat>, k: nat)
    requires NoDup(v) && Dropped(v, w, k)
    ensures NoDup(w) && forall g :: g in w <==> g in v && g != v[k]
  {
    WithoutAt(v, k);
    WithoutMembers(v, v[k]);
  }

  lemma {:induction false} DramHeapDrop(h: seq<DramStats>, k: nat)
    requires k < |h|
    ensures Dropped(DramHeapPages(h), DramHeapPages(h[..k] + h[k + 1..]), k)
    ensures DramHeapPages(h)[k] == h[k].page
  {
    var g := h[..k] + h[k + 1..];
    DramHeapAt(h);
    DramHeapAt(g);
    DroppedAt(DramHeapPages(h), DramHeapPages(g), k);
  }

  lemma {:induction false} NvmHeapDrop(h: seq<NvmStats>, k: nat)
    requires k < |h|
    ensures Dropped(NvmHeapPages(h), NvmHeapPages(h[..k] + h[k + 1..]), k)
    ensures NvmHeapPages(h)[k] == h[k].page
  {
    var g := h[..k] + h[k + 1..];
    NvmHeapAt(h);
    NvmHeapAt(g);
    DroppedAt(NvmHeapPages(h), NvmHeapPages(g), k);
  }

  lemma ExtractDramOk(p: Ptt)
    requires HeapsOk(p)
    ensures ExtractDram(p).Ok? && (ExtractDram(p).value.None? <==> p.dramHeap == [])
    ensures ExtractDram(p).value.Some? ==>
      var (q, d) := ExtractDram(p).value.value;
      && HeapsOk(q) && q == p.(dramHeap := q.dramHeap)
      && d.page in DramHeapPages(p.dramHeap)
      && forall g :: g in DramHeapPages(q.dramHeap) <==> g in DramHeapPages(p.dramHeap) && g != d.page
  {
    if p.dramHeap != [] {
      var k := DramFront(p.dramHeap, |p.dramHeap|);
      DramHeapDrop(p.dramHeap, k);
      DroppedMembers(DramHeapPages(p.dramHeap), DramHeapPages(p.dramHeap[..k] + p.dramHeap[k + 1..]), k);
    }
  }

  lemma ExtractNvmOk(p: Ptt)
    requires HeapsOk(p)
    ensures ExtractNvm(p).Ok? && (ExtractNvm(p).value.None? <==> p.nvmHeap == [])
    ensures ExtractNvm(p).value.Some? ==>
      var (q, n) := ExtractNvm(p).value.value;
      && HeapsOk(q) && q == p.(nvmHeap := q.nvmHeap) && n.page !in p.pages && n.page !in NvmHeapPages(q.nvmHeap)
  {
    if p.nvmHeap != [] {
      var k := NvmFront(p.nvmHeap, |p.nvmHeap|);
      NvmHeapDrop(p.nvmHeap, k);
      DroppedMembers(NvmHeapPages(p.nvmHeap), NvmHeapPages(p.nvmHeap[..k] + p.nvmHeap[k + 1..]), k);
    }
  }

  // ----- the two loops -----

  /** A page resident in the middle was resident before or stays resident. */
  ghost predicate Between(s: State, m: State, t: State) {
    && m.ptt.pageBlocks == s.ptt.pageBlocks
    && forall g :: g in m.ptt.pages ==> g in s.ptt.pages || g in t.ptt.pages
  }

  lemma PageMovedTrans(s: State, m: State, t: State)
    requires PageMoved(s, m) && PageMoved(m, t) && Between(s, m, t)
    ensures PageMoved(s, t)
  {
    forall g ensures SameView(s, t, g) {
      assert SameView(s, m, g) && SameView(m, t, g);
    }
    forall image, dom | Retained(s, image, dom, Current) && Outside(dom, t) ensures Retained(t, image, dom, Current) {
      var loc :| Held(s, image, dom, loc, Current);
      forall g | g in dom ensures !IsDram(m, g) {
        assert HeldAt(s, image, dom, loc, Current, g);
      }
      assert Outside(dom, m);
    }
  }

  /** Pages only leave DRAM if they wait in its heap. */
  ghost predicate HeapBound(s: State, t: State) {
    && (forall g :: g in DramHeapPages(t.ptt.dramHeap) ==> g in DramHeapPages(s.ptt.dramHeap))
    && (forall g :: g in s.ptt.pages && g !in DramHeapPages(s.ptt.dramHeap) ==> g in t.ptt.pages)
  }

  ghost predicate Migrates(s: State, t: State) {
    PageMoved(s, t) && HeapsOk(t.ptt) && HeapBound(s, t) && t.toNvm == s.toNvm
  }

  lemma MigratesTrans(s: State, m: State, t: State)
    requires HeapsOk(s.ptt) && Migrates(s, m) && Migrates(m, t)
    ensures Migrates(s, t)
  {
    PageMovedTrans(s, m, t);
  }

  /** Taking a page off a heap. */
  lemma HeapTaken(s: State, t: State)
    requires Inv(s) && !s.ckpt && NoLoan(s) && t == s.(ptt := t.ptt) && HeapsOk(t.ptt)
    requires t.ptt == s.ptt.(nvmHeap := t.ptt.nvmHeap, dramHeap := t.ptt.dramHeap)
    requires forall g :: g in DramHeapPages(t.ptt.dramHeap) ==> g in DramHeapPages(s.ptt.dramHeap)
    ensures Migrates(s, t)
  {
    ExclusiveSame(s, t);
    InvPages(s, t);
    forall i ensures NotLoan(t, i) {
      assert NotLoan(s, i);
    }
  }

  /** One clean page leaves DRAM to make room. */
  lemma PageLeaves(s: State, q: Ptt, d: DramStats)
    requires Inv(s) && !s.ckpt && NoLoan(s) && HeapsOk(s.ptt)
    requires ExtractDram(s.ptt) == Ok(Some((q, d)))
    ensures MigrateDram(s.(ptt := q), d).Ok?
    ensures var t := MigrateDram(s.(ptt := q), d).value;
      Migrates(s, t) && |t.ptt.pages| == |s.ptt.pages| - 1 && t.ptt.nvmHeap == s.ptt.nvmHeap
  {
    ExtractDramOk(s.ptt);
    var m := s.(ptt := q);
    HeapTaken(s, m);
    MigrateDramOk(m, d);
    PageMovedTrans(s, m, MigrateDram(m, d).value);
  }

  /** One dirty page enters DRAM. */
  lemma PageEnters(s: State, n: NvmStats) returns (t: State)
    requires Inv(s) && !s.ckpt && NoLoan(s) && HeapsOk(s.ptt)
    requires n.page !in s.ptt.pages && n.page !in NvmHeapPages(s.ptt.nvmHeap) && |s.ptt.pages| < s.ptt.capacity
    ensures MigrateNvm(s, n) == Ok(t) && Migrates(s, t) && t.ptt.nvmHeap == s.ptt.nvmHeap
  {
    MigrateNvmOk(s, n);
    t := MigrateNvm(s, n).value;
  }

  /** A full table gives up a clean page for the new one. */
  lemma ExchangeFull(s: State, q: Ptt, d: DramStats, n: NvmStats) returns (m: State, t: State)
    requires Inv(s) && !s.ckpt && NoLoan(s) && HeapsOk(s.ptt) && ExtractDram(s.ptt) == Ok(Some((q, d)))
    requires n.page !in s.ptt.pages && n.page !in NvmHeapPages(s.ptt.nvmHeap) && |s.ptt.pages| == s.ptt.capacity
    ensures MigrateDram(s.(ptt := q), d) == Ok(m) && MigrateNvm(m, n) == Ok(t)
    ensures Migrates(s, t) && t.ptt.nvmHeap == s.ptt.nvmHeap
  {
    PageLeaves(s, q, d);
    m := MigrateDram(s.(ptt := q), d).value;
    PageOutKeeps(s, q, d, n.page);
    t := PageEnters(m, n);
    MigratesTrans(s, m, t);
  }

  lemma PageOutKeeps(s: State, q: Ptt, d: DramStats, g: nat)
    requires Inv(s) && !s.ckpt && NoLoan(s) && HeapsOk(s.ptt) && ExtractDram(s.ptt) == Ok(Some((q, d)))
    requires g !in s.ptt.pages
    ensures MigrateDram(s.(ptt := q), d).Ok? && g !in MigrateDram(s.(ptt := q), d).value.ptt.pages
  {
    ExtractDramOk(s.ptt);
    HeapTaken(s, s.(ptt := q));
    MigrateDramOk(s.(ptt := q), d);
  }

  /** What the first loop ends with. */
  ghost predicate Exchanged(s: State, r: Outcome<(State, Exit)>) {
    && r.Ok? && var (t, exit) := r.value;
    && Migrates(s, t)
    && (exit.Proceed? && exit.ready.Some? ==>
          var g := exit.ready.value.page;
          g in t.ptt.pages && g in DramHeapPages(s.ptt.dramHeap) && g !in DramHeapPages(t.ptt.dramHeap))
  }

  lemma ExchangedAfter(s: State, m: State, r: Outcome<(State, Exit)>)
    requires HeapsOk(s.ptt) && Migrates(s, m) && Exchanged(m, r)
    ensures Exchanged(s, r)
  {
    MigratesTrans(s, m, r.value.0);
  }

  /** One turn of the exchange loop goes on from `t`, or stops with `r`. */
  ghost predicate Turned(s: State, dirtyMin: int, t: Option<State>, r: Outcome<(State, Exit)>) {
    match t
    case None => Exchanged(s, r)
    case Some(t) => Migrates(s, t) && |t.ptt.nvmHeap| < |s.ptt.nvmHeap| && r == ExchangePages(t, dirtyMin)
  }

  ghost predicate TurnYields(s: State, dirtyMin: int, r: Outcome<(State, Exit)>) {
    forall u {:trigger Unlocked(u)} :: Unlocked(u) ==> ExchangePages(s, dirtyMin) == r
  }

  lemma TurnEmpty(s: State, dirtyMin: int)
    requires s.ptt.nvmFilled && s.ptt.nvmHeap == []
    ensures TurnYields(s, dirtyMin, Ok((s, Proceed(None))))
  {
  }

  lemma TurnFew(s: State, q: Ptt, n: NvmStats, dirtyMin: int)
    requires ExtractNvm(s.ptt) == Ok(Some((q, n))) && n.dirtyBlocks < dirtyMin
    ensures TurnYields(s, dirtyMin, Ok((s.(ptt := q), Proceed(None))))
  {
  }

  lemma {:induction false} TurnIn(s: State, q: Ptt, n: NvmStats, t: State, dirtyMin: int)
    requires ExtractNvm(s.ptt) == Ok(Some((q, n))) && n.dirtyBlocks >= dirtyMin && |q.pages| != q.capacity
    requires MigrateNvm(s.(ptt := q), n) == Ok(t) && |t.ptt.nvmHeap| < |s.ptt.nvmHeap|
    ensures TurnYields(s, dirtyMin, ExchangePages(t, dirtyMin))
  {
  }

  lemma TurnFull(s: State, q: Ptt, n: NvmStats, dirtyMin: int)
    requires ExtractNvm(s.ptt) == Ok(Some((q, n))) && n.dirtyBlocks >= dirtyMin && |q.pages| == q.capacity
    requires ExtractDram(q).Ok?
    ensures ExtractDram(q).value.None? ==> TurnYields(s, dirtyMin, Ok((s.(ptt := q), Return)))
    ensures ExtractDram(q).value.Some? ==>
      var (q2, d) := ExtractDram(q).value.value;
      d.writes > 0 ==> TurnYields(s, dirtyMin, Ok((s.(ptt := q2), Proceed(Some(d)))))
  {
  }

  lemma {:induction false} TurnSwap(s: State, q: Ptt, n: NvmStats, q2: Ptt, d: DramStats, m: State, t: State, dirtyMin: int)
    requires ExtractNvm(s.ptt) == Ok(Some((q, n))) && n.dirtyBlocks >= dirtyMin && |q.pages| == q.capacity
    requires ExtractDram(q) == Ok(Some((q2, d))) && d.writes == 0 && MigrateDram(s.(ptt := q2), d) == Ok(m)
    requires MigrateNvm(m, n) == Ok(t) && |t.ptt.nvmHeap| < |s.ptt.nvmHeap|
    ensures TurnYields(s, dirtyMin, ExchangePages(t, dirtyMin))
  {
  }

  lemma ExchangeTurn(s: State, dirtyMin: int) returns (t: Option<State>, r: Outcome<(State, Exit)>)
    requires Inv(s) && !s.ckpt && NoLoan(s) && HeapsOk(s.ptt)
    ensures Turned(s, dirtyMin, t, r) && TurnYields(s, dirtyMin, r)
  {
    ExtractNvmOk(s.ptt);
    t := None;
    if s.ptt.nvmHeap == [] {
      HeapTaken(s, s);
      TurnEmpty(s, dirtyMin);
      r := Ok((s, Proceed(None)));
    } else {
      var (q, n) := ExtractNvm(s.ptt).value.value;
      var s1 := s.(ptt := q);
      HeapTaken(s, s1);
      if n.dirtyBlocks < dirtyMin {
        TurnFew(s, q, n, dirtyMin);
        r := Ok((s1, Proceed(None)));
      } else if |s1.ptt.pages| == s1.ptt.capacity {
        t, r := ExchangeFullTurn(s, s1, n, dirtyMin);
      } else {
        var s2 := PageEnters(s1, n);
        MigratesTrans(s, s1, s2);
        TurnIn(s, q, n, s2, dirtyMin);
        t, r := Some(s2), ExchangePages(s2, dirtyMin);
      }
    }
  }

  lemma ExchangeFullTurn(s: State, s1: State, n: NvmStats, dirtyMin: int)
    returns (t: Option<State>, r: Outcome<(State, Exit)>)
    requires Inv(s1) && !s1.ckpt && NoLoan(s1) && HeapsOk(s.ptt) && Migrates(s, s1) && s1 == s.(ptt := s1.ptt)
    requires ExtractNvm(s.ptt) == Ok(Some((s1.ptt, n))) && n.dirtyBlocks >= dirtyMin
    requires |s1.ptt.nvmHeap| < |s.ptt.nvmHeap|
    requires n.page !in s1.ptt.pages && n.page !in NvmHeapPages(s1.ptt.nvmHeap) && |s1.ptt.pages| == s1.ptt.capacity
    ensures Turned(s, dirtyMin, t, r) && TurnYields(s, dirtyMin, r)
  {
    ExtractDramOk(s1.ptt);
    TurnFull(s, s1.ptt, n, dirtyMin);
    t := None;
    if s1.ptt.dramHeap == [] {
      r := Ok((s1, Return));
    } else {
      var (q, d) := ExtractDram(s1.ptt).value.value;
      if d.writes == 0 {
        var s3, s4 := ExchangeFull(s1, q, d, n);
        MigratesTrans(s, s1, s4);
        TurnSwap(s, s1.ptt, n, q, d, s3, s4, dirtyMin);
        t, r := Some(s4), ExchangePages(s4, dirtyMin);
      } else {
        HeapTaken(s1, s1.(ptt := q));
        MigratesTrans(s, s1, s1.(ptt := q));
        r := Ok((s1.(ptt := q), Proceed(Some(d))));
      }
    }
  }

  lemma {:induction false} TurnResult(s: State, dirtyMin: int, r: Outcome<(State, Exit)>)
    requires TurnYields(s, dirtyMin, r)
    ensures ExchangePages(s, dirtyMin) == r
  {
    assert Unlocked(0);
  }

  /** The exchange loop: every Setup finds a free slot, every Free a resident page. */
  lemma {:induction false} ExchangeOk(s: State, dirtyMin: int)
    requires Inv(s) && !s.ckpt && NoLoan(s) && HeapsOk(s.ptt)
    ensures Exchanged(s, ExchangePages(s, dirtyMin))
    decreases |s.ptt.nvmHeap|
  {
    var t, r := ExchangeTurn(s, dirtyMin);
    TurnResult(s, dirtyMin, r);
    if t.Some? {
      ExchangeOk(t.value, dirtyMin);
      ExchangedAfter(s, t.value, r);
    }
  }

  /** The second loop only takes pages out of DRAM: the given one and those in the heap. */
  ghost predicate Returned(s: State, t: State, d: nat) {
    && PageMoved(s, t)
    && (forall g :: g in t.ptt.pages ==> g in s.ptt.pages)
    && (forall g :: g in s.ptt.pages && g != d && g !in DramHeapPages(s.ptt.dramHeap) ==> g in t.ptt.pages)
  }

  lemma {:induction false} ReturnOk(s: State, d: DramStats, limit: int, writeMax: int) returns (t: State)
    requires Inv(s) && !s.ckpt && NoLoan(s) && HeapsOk(s.ptt)
    requires d.page in s.ptt.pages && d.page !in DramHeapPages(s.ptt.dramHeap)
    ensures ReturnPages(s, d, limit, writeMax) == Ok(t) && Returned(s, t, d.page)
    decreases |s.ptt.dramHeap|, 1
  {
    if d.writes == 0 {
      t := ReturnMoreOk(s, limit, writeMax, d.page);
    } else if d.writes > writeMax {
      t := s;
      HeapTaken(s, s);
    } else {
      t := ReturnMovedOk(s, d, limit, writeMax);
    }
  }

  lemma {:induction false} ReturnMovedOk(s: State, d: DramStats, limit: int, writeMax: int) returns (t: State)
    requires Inv(s) && !s.ckpt && NoLoan(s) && HeapsOk(s.ptt)
    requires d.page in s.ptt.pages && d.page !in DramHeapPages(s.ptt.dramHeap)
    requires d.writes != 0 && d.writes <= writeMax
    ensures ReturnPages(s, d, limit, writeMax) == Ok(t) && Returned(s, t, d.page)
    decreases |s.ptt.dramHeap|, 1, 0
  {
    var m, m1 := ReturnOne(s, d);
    ReturnUnfold(s, d, m, limit, writeMax);
    t := ReturnMoreOk(m1, limit - 1, writeMax, d.page);
    ReturnedAfter(s, m1, t, d.page);
  }

  lemma {:induction false} ReturnUnfold(s: State, d: DramStats, m: State, limit: int, writeMax: int)
    requires d.writes != 0 && d.writes <= writeMax
    requires MigrateDram(s, d) == Ok(m) && m.ptt.dramHeap == s.ptt.dramHeap
    ensures ReturnPages(s, d, limit, writeMax) == ReturnMore(m.(toNvm := m.toNvm + 1), limit - 1, writeMax)
  {
  }

  lemma ReturnedAfter(s: State, m: State, t: State, d: nat)
    requires PageMoved(s, m) && m.ptt.dramHeap == s.ptt.dramHeap && m.ptt.pages.Keys == s.ptt.pages.Keys - {d}
    requires Returned(m, t, d)
    ensures Returned(s, t, d)
  {
    PageMovedTrans(s, m, t);
  }

  lemma ReturnOne(s: State, d: DramStats) returns (m: State, t: State)
    requires Inv(s) && !s.ckpt && NoLoan(s) && HeapsOk(s.ptt)
    requires d.page in s.ptt.pages && d.page !in DramHeapPages(s.ptt.dramHeap)
    ensures MigrateDram(s, d) == Ok(m) && t == m.(toNvm := m.toNvm + 1)
    ensures PageMoved(s, t) && HeapsOk(t.ptt) && t.ptt.dramHeap == s.ptt.dramHeap
    ensures t.ptt.pages.Keys == s.ptt.pages.Keys - {d.page}
  {
    MigrateDramOk(s, d);
    m := MigrateDram(s, d).value;
    t := m.(toNvm := m.toNvm + 1);
    ExclusiveSame(m, t);
    InvPages(m, t);
    forall i ensures NotLoan(t, i) {
      assert NotLoan(m, i);
    }
    PageMovedTrans(s, m, t);
  }

  lemma ReturnedMore(s: State, m: State, t: State, e: nat, d: nat)
    requires Migrates(s, m) && Returned(m, t, e) && m.ptt.pages == s.ptt.pages
    requires e in DramHeapPages(s.ptt.dramHeap)
    ensures Returned(s, t, d)
  {
    PageMovedTrans(s, m, t);
  }

  lemma {:induction false} ReturnMoreOk(s: State, limit: int, writeMax: int, d: nat) returns (t: State)
    requires Inv(s) && !s.ckpt && NoLoan(s) && HeapsOk(s.ptt)
    ensures ReturnMore(s, limit, writeMax) == Ok(t) && Returned(s, t, d)
    decreases |s.ptt.dramHeap|, 0
  {
    ExtractDramOk(s.ptt);
    if limit == 0 || s.ptt.dramHeap == [] {
      t := s;
      HeapTaken(s, s);
    } else {
      var (q, e) := ExtractDram(s.ptt).value.value;
      var m := s.(ptt := q);
      HeapTaken(s, m);
      t := ReturnOk(m, e, limit, writeMax);
      ReturnedMore(s, m, t, e.page, d);
    }
  }

  // ----- bound of the second loop -----

  lemma MigrateDramCount(s: State, d: DramStats)
    requires MigrateDram(s, d).Ok?
    ensures var t := MigrateDram(s, d).value; t.toNvm == s.toNvm && t.ptt.dramHeap == s.ptt.dramHeap
  {
  }

  /** With a positive limit the loop moves at most that many pages. */
  lemma {:induction false} ReturnBound(s: State, d: DramStats, limit: int, writeMax: int)
    requires limit > 0 && ReturnPages(s, d, limit, writeMax).Ok?
    ensures s.toNvm <= ReturnPages(s, d, limit, writeMax).value.toNvm <= s.toNvm + limit
    decreases |s.ptt.dramHeap|, 1
  {
    if d.writes == 0 {
      ReturnMoreBound(s, limit, writeMax);
    } else if d.writes <= writeMax {
      MigrateDramCount(s, d);
      var m := MigrateDram(s, d).value;
      ReturnMoreBound(m.(toNvm := m.toNvm + 1), limit - 1, writeMax);
    }
  }

  lemma {:induction false} ReturnMoreBound(s: State, limit: int, writeMax: int)
    requires limit >= 0 && ReturnMore(s, limit, writeMax).Ok?
    ensures s.toNvm <= ReturnMore(s, limit, writeMax).value.toNvm <= s.toNvm + limit
    decreases |s.ptt.dramHeap|, 0
  {
    if limit != 0 && ExtractDram(s.ptt).value.Some? {
      var (q, e) := ExtractDram(s.ptt).value.value;
      ReturnBound(s.(ptt := q), e, limit, writeMax);
    }
  }

  lemma {:induction false} ReturnGrows(s: State, d: DramStats, limit: int, writeMax: int)
    requires ReturnPages(s, d, limit, writeMax).Ok?
    ensures s.toNvm <= ReturnPages(s, d, limit, writeMax).value.toNvm
    decreases |s.ptt.dramHeap|, 1
  {
    if d.writes == 0 {
      ReturnMoreGrows(s, limit, writeMax);
    } else if d.writes <= writeMax {
      MigrateDramCount(s, d);
      var m := MigrateDram(s, d).value;
      ReturnMoreGrows(m.(toNvm := m.toNvm + 1), limit - 1, writeMax);
    }
  }

  lemma {:induction false} ReturnMoreGrows(s: State, limit: int, writeMax: int)
    requires ReturnMore(s, limit, writeMax).Ok?
    ensures s.toNvm <= ReturnMore(s, limit, writeMax).value.toNvm
    decreases |s.ptt.dramHeap|, 0
  {
    if limit != 0 && ExtractDram(s.ptt).value.Some? {
      var (q, e) := ExtractDram(s.ptt).value.value;
      ReturnGrows(s.(ptt := q), e, limit, writeMax);
    }
  }

  /** The loop respects a limit of `capacity - length` exactly if that limit is positive, or the
      first page is not one it moves: a zero limit is only tested after the first move. */
  lemma {:induction false} ReturnBoundExact(s: State, d: DramStats, limit: nat, writeMax: int)
    requires ReturnPages(s, d, limit, writeMax).Ok?
    ensures ReturnPages(s, d, limit, writeMax).value.toNvm <= s.toNvm + limit <==>
      limit > 0 || d.writes == 0 || d.writes > writeMax
  {
    if limit > 0 {
      ReturnBound(s, d, limit, writeMax);
    } else if d.writes != 0 && d.writes <= writeMax {
      MigrateDramCount(s, d);
      var m := MigrateDram(s, d).value;
      ReturnMoreGrows(m.(toNvm := m.toNvm + 1), -1, writeMax);
    }
  }

  // ----- MigratePages -----

  /** What MigratePages guarantees. */
  ghost predicate Migrated(s: State, t: State) {
    && Inv(t) && !t.ckpt && Queue(t.att, Loan) == []
    && t.phyBlocks == s.phyBlocks && t.blockSize == s.blockSize && |t.att.entries| == |s.att.entries|
    && t.nvm.base == s.nvm.base && s.nvm.backup0 <= t.nvm.backup0 && s.nvm.backup1 <= t.nvm.backup1
    && t.ptt.pageBlocks == s.ptt.pageBlocks && t.ptt.length == s.ptt.length && t.ptt.capacity == s.ptt.capacity
    && t.ptt.nvmFilled && t.stats == s.stats
    && t.ptt.totalNvm == s.ptt.totalNvm + NvmWrites(s) && t.ptt.totalDram == s.ptt.totalDram + DramWrites(s.ptt)
    && NvmWrites(t) == NvmWrites(s)
    && (forall g :: SameView(s, t, g)) && KeepsOut(s, t)
    && |t.ptt.pages| <= t.ptt.capacity && ReturnsFew(s, t)
  }

  /** A page table of 16 pages or more, the least with spare capacity, gives back at most that many
      written pages. */
  ghost predicate ReturnsFew(s: State, t: State) {
    s.ptt.length >= 16 ==> t.toNvm <= s.toNvm + (s.ptt.capacity - s.ptt.length)
  }

  /** The hash tables' iteration orders list the tables' keys. */
  ghost predicate Orders(s: State, nvmOrder: seq<nat>, dramOrder: seq<nat>) {
    && |s.att.queues| == 4 && RevokeLoans(s, Queue(s.att, Loan)).Ok?
    && var es := RevokeLoans(s, Queue(s.att, Loan)).value.att.entries;
    && Listing(nvmOrder, ActivePages(es, |es|, s.ptt.pageBlocks)) && Listing(dramOrder, s.ptt.pages.Keys)
  }

  lemma QuietSettled(s: State)
    requires Quiet(s)
    ensures SettledUnwritten(s.att.entries, |s.att.entries|)
  {
    forall i | 0 <= i < |s.att.entries| && Settled(s.att.entries[i]) ensures s.att.entries[i].epochWrites == 0 {
      assert QuietAt(s, i);
    }
  }

  /** After InputBlocks: the heaps hold the pages to consider. */
  lemma InputState(s: State, nvmOrder: seq<nat>, dramOrder: seq<nat>)
    requires Inv(s) && !s.ckpt && NoLoan(s) && Idle(s.ptt) && Quiet(s)
    requires Listing(nvmOrder, ActivePages(s.att.entries, |s.att.entries|, s.ptt.pageBlocks))
    requires Listing(dramOrder, s.ptt.pages.Keys)
    ensures InputBlocks(s.ptt, s.att.entries, nvmOrder, dramOrder).Ok?
    ensures var t := s.(ptt := InputBlocks(s.ptt, s.att.entries, nvmOrder, dramOrder).value);
      && Inv(t) && NoLoan(t) && HeapsOk(t.ptt) && KeepsOut(s, t)
      && (forall g: nat :: Place(t, g) == Place(s, g) && SameView(s, t, g))
      && t.ptt == s.ptt.(nvmPages := t.ptt.nvmPages, nvmHeap := t.ptt.nvmHeap, dramHeap := t.ptt.dramHeap,
                         nvmFilled := true, dramFilled := true, totalNvm := t.ptt.totalNvm, totalDram := t.ptt.totalDram)
      && t.ptt.totalNvm == s.ptt.totalNvm + NvmWrites(s) && t.ptt.totalDram == s.ptt.totalDram + DramWrites(s.ptt)
  {
    QuietSettled(s);
    InputBlocksOk(s.ptt, s.att.entries, nvmOrder, dramOrder);
    var t := s.(ptt := InputBlocks(s.ptt, s.att.entries, nvmOrder, dramOrder).value);
    ExclusiveSame(s, t);
    InvPages(s, t);
    forall i ensures NotLoan(t, i) {
      assert NotLoan(s, i);
    }
    forall g | g in nvmOrder ensures g !in s.ptt.pages {
      ActiveOutside(s, g);
    }
  }

  lemma ActiveOutside(s: State, g: nat)
    requires Exclusive(s) && NoLoan(s) && g in ActivePages(s.att.entries, |s.att.entries|, s.ptt.pageBlocks)
    ensures g !in s.ptt.pages
  {
    var es := s.att.entries;
    var i :| 0 <= i < |es| && !Settled(es[i]) && PageNumber(es[i].tag, s.ptt.pageBlocks) == g;
    assert SideOk(s, i) && NotLoan(s, i);
  }

  /** Everything the second loop takes out of DRAM was there when the heap was filled. */
  lemma ReturnedBetween(s: State, m: State, t: State, d: nat)
    requires HeapsOk(s.ptt) && Migrates(s, m) && Returned(m, t, d)
    requires d in s.ptt.pages || d !in m.ptt.pages
    ensures PageMoved(s, t)
  {
    PageMovedTrans(s, m, t);
  }

  lemma ReturnedTaken(s: State, m: State, t: State, d: nat)
    requires Migrates(s, m) && Returned(m, t, d) && m.ptt.pages == s.ptt.pages
    ensures Returned(s, t, d)
  {
    PageMovedTrans(s, m, t);
  }

  lemma ReturnFirstOk(s: State, limit: int, writeMax: int) returns (t: State, d: nat)
    requires Inv(s) && !s.ckpt && NoLoan(s) && HeapsOk(s.ptt)
    ensures ReturnFirst(s, limit, writeMax) == Ok(t) && Returned(s, t, d)
    ensures d in DramHeapPages(s.ptt.dramHeap) || d !in s.ptt.pages
  {
    ExtractDramOk(s.ptt);
    if s.ptt.dramHeap == [] {
      t := s;
      HeapTaken(s, s);
      d := Beyond(s.ptt.pages.Keys);
    } else {
      var (q, e) := ExtractDram(s.ptt).value.value;
      var m := s.(ptt := q);
      HeapTaken(s, m);
      d := e.page;
      t := ReturnOk(m, e, limit, writeMax);
      ReturnedTaken(s, m, t, d);
    }
  }

  lemma {:induction false} Beyond(s: set<nat>) returns (d: nat)
    ensures forall x :: x in s ==> x < d
  {
    if s == {} {
      d := 0;
    } else {
      var y :| y in s;
      d := Beyond(s - {y});
      assert forall x :: x in s ==> x == y || x in s - {y};
      d := if d <= y then y + 1 else d;
    }
  }

  /** What follows the exchange loop ends in `t`. */
  ghost predicate AfterYields(m: State, exit: Exit, limit: int, writeMax: int, t: State) {
    forall u {:trigger Unlocked(u)} :: Unlocked(u) ==> AfterExchange(m, exit, limit, writeMax) == Ok(t)
  }

  /** `PageMoved`, on request. */
  ghost predicate PagesMoved(s: State, t: State) {
    forall u {:trigger Unsealed(u)} :: Unsealed(u) ==> PageMoved(s, t)
  }

  /** `Exchanged`, on request. */
  ghost predicate ExchangedTo(s: State, m: State, exit: Exit) {
    forall u {:trigger Unsealed(u)} :: Unsealed(u) ==> Exchanged(s, Ok((m, exit)))
  }

  /** What follows the exchange loop moves at most `limit` pages, if that is positive. */
  lemma AfterBound(m: State, exit: Exit, limit: int, writeMax: int, t: State)
    requires AfterYields(m, exit, limit, writeMax, t) && limit > 0
    ensures t.toNvm <= m.toNvm + limit
  {
    assert Unlocked(0);
    if exit.Proceed? {
      if exit.ready.Some? {
        ReturnBound(m, exit.ready.value, limit, writeMax);
      } else if ExtractDram(m.ptt).value.Some? {
        var (q, d) := ExtractDram(m.ptt).value.value;
        ReturnBound(m.(ptt := q), d, limit, writeMax);
      }
    }
  }

  /** The page that the second loop starts with, if there is one. */
  function FirstPage(m: State, exit: Exit): Option<DramStats> {
    if exit.Return? then None
    else if exit.ready.Some? then exit.ready
    else
      var r := ExtractDram(m.ptt);
      if r.Ok? && r.value.Some? then Some(r.value.value.1) else None
  }

  /** The second loop moves its first page. */
  predicate MovesFirst(m: State, exit: Exit, writeMax: int) {
    var d := FirstPage(m, exit);
    d.Some? && 0 < d.value.writes <= writeMax
  }

  /** What follows the exchange loop keeps its limit exactly if that is positive or no first page moves. */
  lemma AfterBoundExact(m: State, exit: Exit, limit: nat, writeMax: int, t: State)
    requires AfterYields(m, exit, limit, writeMax, t)
    ensures t.toNvm <= m.toNvm + limit <==> limit > 0 || !MovesFirst(m, exit, writeMax)
  {
    assert Unlocked(0);
    if exit.Proceed? {
      if exit.ready.Some? {
        ReturnBoundExact(m, exit.ready.value, limit, writeMax);
      } else if ExtractDram(m.ptt).value.Some? {
        var (q, d) := ExtractDram(m.ptt).value.value;
        ReturnBoundExact(m.(ptt := q), d, limit, writeMax);
      }
    }
  }

  /** The exchange loop gives no written page back and leaves the sizes alone. */
  lemma ExchangedSizes(s: State, m: State, exit: Exit)
    requires ExchangedTo(s, m, exit)
    ensures m.toNvm == s.toNvm && m.ptt.capacity == s.ptt.capacity && m.ptt.length == s.ptt.length
  {
    assert Unsealed(0);
  }

  /** The second part of MigratePages, from the end of the exchange loop. */
  lemma FinishMigration(s: State, m: State, exit: Exit, limit: int, writeMax: int) returns (t: State)
    requires Inv(s) && !s.ckpt && HeapsOk(s.ptt) && ExchangedTo(s, m, exit)
    ensures AfterYields(m, exit, limit, writeMax, t) && PagesMoved(s, t)
  {
    assert Unsealed(0);
    if exit.Return? {
      t := m;
    } else if exit.ready.Some? {
      t := ReturnOk(m, exit.ready.value, limit, writeMax);
      ReturnedBetween(s, m, t, exit.ready.value.page);
    } else {
      var d;
      t, d := ReturnFirstOk(m, limit, writeMax);
      ReturnedBetween(s, m, t, d);
    }
  }

  lemma MigrateInputOk(s: State, nvmOrder: seq<nat>, dramOrder: seq<nat>) returns (s1: State, s2: State)
    requires Inv(s) && !s.ckpt && Idle(s.ptt) && Quiet(s) && Orders(s, nvmOrder, dramOrder)
    ensures InputYields(s, nvmOrder, dramOrder, s2)
    ensures Collected(s, s1, s2) && Inv(s2) && NoLoan(s2) && HeapsOk(s2.ptt)
  {
    RevokeAllOk(s);
    s1 := RevokeLoans(s, Queue(s.att, Loan)).value;
    ThroughCounts(s, s1, s.phyBlocks);
    InputState(s1, nvmOrder, dramOrder);
    s2 := s1.(ptt := InputBlocks(s1.ptt, s1.att.entries, nvmOrder, dramOrder).value);
  }

  /** The exchange loop ends in `m` with `exit`. */
  ghost predicate ExchangeYields(s: State, dirtyMin: int, m: State, exit: Exit) {
    forall u {:trigger Unlocked(u)} :: Unlocked(u) ==> ExchangePages(s, dirtyMin) == Ok((m, exit))
  }

  lemma ExchangeResult(s: State, dirtyMin: int) returns (m: State, exit: Exit)
    requires Inv(s) && !s.ckpt && NoLoan(s) && HeapsOk(s.ptt)
    ensures ExchangeYields(s, dirtyMin, m, exit) && ExchangedTo(s, m, exit)
  {
    ExchangeOk(s, dirtyMin);
    m, exit := ExchangePages(s, dirtyMin).value.0, ExchangePages(s, dirtyMin).value.1;
  }

  /** The two loops end in `t`. */
  ghost predicate LoopsYield(s: State, dirtyMin: int, writeMax: int, t: State) {
    forall u {:trigger Unlocked(u)} :: Unlocked(u) ==> MigrateLoops(s, dirtyMin, writeMax) == Ok(t)
  }

  lemma LoopsUnfold(s: State, m: State, exit: Exit, t: State, dirtyMin: int, writeMax: int)
    requires ExchangeYields(s, dirtyMin, m, exit) && AfterYields(m, exit, m.ptt.capacity - m.ptt.length, writeMax, t)
    ensures LoopsYield(s, dirtyMin, writeMax, t)
  {
    assert Unlocked(0);
  }

  lemma MigrateLoopsOk(s: State, dirtyMin: int, writeMax: int) returns (t: State)
    requires Inv(s) && !s.ckpt && NoLoan(s) && HeapsOk(s.ptt)
    ensures LoopsYield(s, dirtyMin, writeMax, t) && PagesMoved(s, t) && ReturnsFew(s, t)
  {
    var m, exit := ExchangeResult(s, dirtyMin);
    var limit := m.ptt.capacity - m.ptt.length;
    t := FinishMigration(s, m, exit, limit, writeMax);
    LoopsUnfold(s, m, exit, t, dirtyMin, writeMax);
    ExchangedSizes(s, m, exit);
    if s.ptt.length >= 16 {
      AfterBound(m, exit, limit, writeMax, t);
    }
  }

  /** The two loops return no more pages than the spare capacity exactly if there are 16 pages, so that
      it is positive, or no first page moves. */
  lemma LoopsBoundExact(s: State, dirtyMin: int, writeMax: int, t: State) returns (m: State, exit: Exit)
    requires Inv(s) && !s.ckpt && NoLoan(s) && HeapsOk(s.ptt) && LoopsYield(s, dirtyMin, writeMax, t)
    ensures ExchangeYields(s, dirtyMin, m, exit)
    ensures t.toNvm <= s.toNvm + (s.ptt.capacity - s.ptt.length) <==>
      s.ptt.length >= 16 || !MovesFirst(m, exit, writeMax)
  {
    m, exit := ExchangeResult(s, dirtyMin);
    ExchangedSizes(s, m, exit);
    var limit := m.ptt.capacity - m.ptt.length;
    AfterOf(s, m, exit, t, dirtyMin, writeMax);
    AfterBoundExact(m, exit, limit, writeMax, t);
  }

  lemma AfterOf(s: State, m: State, exit: Exit, t: State, dirtyMin: int, writeMax: int)
    requires ExchangeYields(s, dirtyMin, m, exit) && LoopsYield(s, dirtyMin, writeMax, t)
    ensures AfterYields(m, exit, m.ptt.capacity - m.ptt.length, writeMax, t)
  {
    assert Unlocked(0);
  }

  ghost predicate InputYields(s: State, nvmOrder: seq<nat>, dramOrder: seq<nat>, t: State) {
    forall u {:trigger Unlocked(u)} :: Unlocked(u) ==> MigrateInput(s, nvmOrder, dramOrder) == Ok(t)
  }

  ghost predicate MigrateYields(s: State, dr: real, wr: real, nvmOrder: seq<nat>, dramOrder: seq<nat>, t: State) {
    forall u {:trigger Unlocked(u)} :: Unlocked(u) ==> MigratePages(s, dr, wr, nvmOrder, dramOrder) == Ok(t)
  }

  lemma MigrateUnfold(s: State, m: State, t: State, dr: real, wr: real, nvmOrder: seq<nat>, dramOrder: seq<nat>)
    requires InputYields(s, nvmOrder, dramOrder, m)
    requires LoopsYield(m, CountFrom(dr, s.ptt.pageBlocks), CountUpTo(wr, s.ptt.pageBlocks), t)
    ensures MigrateYields(s, dr, wr, nvmOrder, dramOrder, t)
  {
    assert Unlocked(0);
  }

  /** MigratePages meets all its assertions, ends, and moves pages without changing any block's value. */
  lemma MigratePagesOk(s: State, dr: real, wr: real, nvmOrder: seq<nat>, dramOrder: seq<nat>) returns (t: State)
    requires Inv(s) && !s.ckpt && Idle(s.ptt) && Quiet(s) && Orders(s, nvmOrder, dramOrder)
    ensures MigrateYields(s, dr, wr, nvmOrder, dramOrder, t) && Migrated(s, t)
  {
    var s1, s2 := MigrateInputOk(s, nvmOrder, dramOrder);
    t := MigrateLoopsOk(s2, CountFrom(dr, s.ptt.pageBlocks), CountUpTo(wr, s.ptt.pageBlocks));
    MigrateUnfold(s, s2, t, dr, wr, nvmOrder, dramOrder);
    MigratedFrom(s, s1, s2, t);
  }

  /** MigratePages returns no more pages than the spare capacity exactly if the table has 16 pages or no
      first page moves, where `s2` has its heaps filled and `m` is left by the exchange loop. */
  lemma MigrateBoundExact(s: State, dr: real, wr: real, nvmOrder: seq<nat>, dramOrder: seq<nat>, dirtyMin: int, writeMax: int)
    returns (s2: State, m: State, exit: Exit, t: State)
    requires Inv(s) && !s.ckpt && Idle(s.ptt) && Quiet(s) && Orders(s, nvmOrder, dramOrder)
    requires dirtyMin == CountFrom(dr, s.ptt.pageBlocks) && writeMax == CountUpTo(wr, s.ptt.pageBlocks)
    ensures InputYields(s, nvmOrder, dramOrder, s2) && ExchangeYields(s2, dirtyMin, m, exit)
    ensures MigrateYields(s, dr, wr, nvmOrder, dramOrder, t)
    ensures t.toNvm <= s.toNvm + (s.ptt.capacity - s.ptt.length) <==>
      s.ptt.length >= 16 || !MovesFirst(m, exit, writeMax)
  {
    var s1;
    s1, s2 := MigrateInputOk(s, nvmOrder, dramOrder);
    t := MigrateLoopsOk(s2, dirtyMin, writeMax);
    MigrateUnfold(s, s2, t, dr, wr, nvmOrder, dramOrder);
    m, exit := LoopsBoundExact(s2, dirtyMin, writeMax, t);
  }

  /** Loans revoked (`s1`), statistics collected and heaps filled (`s2`). */
  ghost predicate Collected(s: State, s1: State, s2: State) {
    && Through(s, s1, s.phyBlocks) && s1.stats == s.stats && NvmWrites(s1) == NvmWrites(s)
    && s2 == s1.(ptt := s2.ptt) && KeepsOut(s1, s2) && (forall g: nat :: SameView(s1, s2, g))
    && s2.ptt == s1.ptt.(nvmPages := s2.ptt.nvmPages, nvmHeap := s2.ptt.nvmHeap, dramHeap := s2.ptt.dramHeap,
                         nvmFilled := true, dramFilled := true, totalNvm := s2.ptt.totalNvm, totalDram := s2.ptt.totalDram)
    && s2.ptt.totalNvm == s1.ptt.totalNvm + NvmWrites(s1) && s2.ptt.totalDram == s1.ptt.totalDram + DramWrites(s1.ptt)
  }

  lemma MigratedFrom(s: State, s1: State, s2: State, t: State)
    requires Inv(s) && !s.ckpt && Collected(s, s1, s2) && Inv(s2)
    requires PagesMoved(s2, t) && ReturnsFew(s2, t)
    ensures Migrated(s, t)
  {
    assert PageMoved(s2, t) by {
      assert Unsealed(0);
    }
    EmptyLoanQueue(t);
    forall g: nat ensures SameView(s, t, g) {
      assert g < s.phyBlocks ==> SameView(s, s1, g);
      assert SameView(s1, s2, g) && SameView(s2, t, g);
    }
    forall image, dom | Retained(s, image, dom, Current) && Outside(dom, t) ensures Retained(t, image, dom, Current) {
      var loc :| Held(s, image, dom, loc, Current);
      forall g | g in dom ensures !IsDram(s2, g) {
        assert HeldAt(s, image, dom, loc, Current, g);
      }
      assert Outside(dom, s2);
      assert Retained(s1, image, dom, Current);
    }
  }
}
