/** Beginning and finishing a checkpoint. */
module Checkpoints {
  import opened Outcomes
  import opened Lists
  import opened Counting
  import opened VersionBuffers
  import opened TranslationTables
  import opened PageTables
  import opened PageTableInvariants
  import opened Controllers
  import opened ControllerInvariants
  import opened Translation
  import opened EntryMoves
  import opened Retention
  import opened Stores

  predicate InDirtyQueue(st: EntryState) {
    StateIndex(st) == 3
  }

  /** Cleaning changes no block's value, no backup, and keeps retained copies. */
  ghost predicate Cleans(s: State, t: State) {
    && Core(t) && t == s.(att := t.att, nvm := t.nvm, dram := t.dram, mem := t.mem)
    && |t.att.entries| == |s.att.entries| && t.nvm.base == s.nvm.base
    && t.nvm.backup0 == s.nvm.backup0 && t.nvm.backup1 == s.nvm.backup1
    && (forall g :: SameView(s, t, g)) && Keeps(s, t, Previous)
  }

  lemma CleansTrans(s: State, t: State, u: State)
    requires Cleans(s, t) && Cleans(t, u)
    ensures Cleans(s, u)
  {
    forall g ensures SameView(s, u, g) {
      assert SameView(s, t, g) && SameView(t, u, g);
    }
    KeepsTrans(s, t, u, Previous);
  }

  lemma MovedCleans(s: State, t: State, x: nat)
    requires Core(s) && Moved(s, t, x, Place(t, x).state, Place(t, x).base, true)
    requires t.nvm.backup0 == s.nvm.backup0 && t.nvm.backup1 == s.nvm.backup1
    requires Gentle(s, t, x, Previous)
    ensures Cleans(s, t)
  {
    KeepsMoved(s, t, x, Previous);
    forall g: nat ensures SameView(s, t, g) {
      if g < s.phyBlocks && g != x {
        MovesView(s, t, x, g);
      }
    }
  }

  /** What a visit leaves behind. */
  ghost predicate Visited(s: State, r: Outcome<State>, i: nat) {
    && r.Ok? && Cleans(s, r.value) && i < |s.att.entries|
    && Settled(r.value.att.entries[i])
    && r.value.att.entries == s.att.entries[i := r.value.att.entries[i]]
  }

  lemma VisitDirty(s: State, i: nat)
    requires Core(s) && !s.ckpt && Live(s, i, Dirty)
    ensures Visited(s, CleanEntry(s, i), i)
  {
    ShiftToClean(s, i);
    EntryPlace(s, i);
    MovedCleans(s, CleanEntry(s, i).value, s.att.entries[i].tag);
  }

  lemma VisitHidden(s: State, i: nat)
    requires Core(s) && !s.ckpt && Live(s, i, Hidden)
    ensures Visited(s, CleanEntry(s, i), i)
  {
    ShiftToFree(s, i);
    EntryPlace(s, i);
    MovedCleans(s, CleanEntry(s, i).value, s.att.entries[i].tag);
  }

  lemma VisitStained(s: State, i: nat)
    requires Core(s) && !s.ckpt && Live(s, i, Stained)
    ensures Visited(s, CleanEntry(s, i), i)
  {
    DirtyStainedStep(s, i, true);
    EntryPlace(s, i);
    var m := DirtyStained(s, i, true).value.0;
    MovedCleans(s, m, s.att.entries[i].tag);
    VisitDirty(m, i);
    assert CleanEntry(s, i) == CleanEntry(m, i);
    CleansTrans(s, m, CleanEntry(s, i).value);
  }

  lemma VisitTemp(s: State, i: nat)
    requires Core(s) && !s.ckpt && Live(s, i, Temp)
    ensures Visited(s, CleanEntry(s, i), i)
  {
    HideTempStep(s, i, true);
    EntryPlace(s, i);
    var m := HideTemp(s, i, true).value;
    MovedCleans(s, m, s.att.entries[i].tag);
    VisitHidden(m, i);
    assert CleanEntry(s, i) == CleanEntry(m, i);
    CleansTrans(s, m, CleanEntry(s, i).value);
  }

  /** DirtyCleaner::Visit settles any entry of the dirty queue, allocation included. */
  lemma VisitOk(s: State, i: nat)
    requires Core(s) && !s.ckpt && i < |s.att.entries| && InDirtyQueue(s.att.entries[i].state)
    ensures Visited(s, CleanEntry(s, i), i)
  {
    match s.att.entries[i].state
    case Dirty => VisitDirty(s, i);
    case Hidden => VisitHidden(s, i);
    case Stained => VisitStained(s, i);
    case Temp => VisitTemp(s, i);
    case _ =>
  }

  ghost predicate Pending(s: State, q: seq<nat>) {
    NoDup(q) && forall k :: 0 <= k < |q| ==> q[k] < |s.att.entries| && InDirtyQueue(s.att.entries[q[k]].state)
  }

  /** The walk settles each entry it was given, once, and leaves every other entry as it was. */
  lemma {:induction false} WalkOk(s: State, q: seq<nat>)
    requires Core(s) && !s.ckpt && Pending(s, q)
    ensures CleanEntries(s, q).Ok?
    ensures var t := CleanEntries(s, q).value;
      && Cleans(s, t)
      && forall j :: 0 <= j < |s.att.entries| ==>
           if j in q then Settled(t.att.entries[j]) else t.att.entries[j] == s.att.entries[j]
    decreases |q|
  {
    if q == [] {
      KeepsSame(s, s, Previous);
      forall g: nat ensures SameView(s, s, g) {
        if g < s.phyBlocks {
          PlaceInside(s, g);
        }
      }
    } else {
      VisitOk(s, q[0]);
      var m := CleanEntry(s, q[0]).value;
      assert Pending(m, q[1..]) by {
        forall k | 0 <= k < |q| - 1 ensures InDirtyQueue(m.att.entries[q[1..][k]].state) {
          assert q[1..][k] == q[k + 1] && q[k + 1] != q[0];
        }
      }
      WalkOk(m, q[1..]);
      CleansTrans(s, m, CleanEntries(m, q[1..]).value);
      assert forall j :: j in q <==> j == q[0] || j in q[1..];
    }
  }

  // ----- begin -----

  /** The flat memory `flat` is what a client sees. */
  ghost predicate ShowsAt(s: State, flat: seq<Block>, g: nat) {
    g < s.phyBlocks ==> g < |flat| && Place(s, g).base < |s.mem| && View(s, g) == flat[g]
  }

  ghost predicate Shows(s: State, flat: seq<Block>) {
    |flat| == s.phyBlocks && forall g :: ShowsAt(s, flat, g)
  }

  /** The physical blocks whose page is not in DRAM. */
  ghost function NvmBlocks(s: State): (r: set<nat>)
    ensures forall g: nat :: g in r <==> g < s.phyBlocks && !IsDram(s, g)
  {
    set g | g in Range(s.phyBlocks) && !IsDram(s, g)
  }

  ghost predicate AllSettled(es: seq<Entry>) {
    forall j :: 0 <= j < |es| ==> Settled(es[j])
  }

  lemma SettledQueues(t: Table)
    requires TableOk(t)
    ensures AllSettled(t.entries) <==> |Queue(t, Clean)| + |Queue(t, Free)| == |t.entries|
    ensures AllSettled(t.entries) ==> Queue(t, Loan) == [] && Queue(t, Dirty) == []
  {
    QueueLengths(t);
    ListingCardinality(t.queues[1], EntriesIn(t.entries, 1));
    ListingCardinality(t.queues[3], EntriesIn(t.entries, 3));
    if AllSettled(t.entries) {
      assert EntriesIn(t.entries, 1) == {} && EntriesIn(t.entries, 3) == {};
    } else {
      var j :| 0 <= j < |t.entries| && !Settled(t.entries[j]);
      assert j in EntriesIn(t.entries, 1) || j in EntriesIn(t.entries, 3);
    }
  }

  lemma NoLoans(s: State, j: nat)
    requires TableOk(s.att) && Queue(s.att, Loan) == [] && j < |s.att.entries|
    ensures s.att.entries[j].state != Loan
  {
    assert Listing(s.att.queues[1], EntriesIn(s.att.entries, 1));
    assert j in EntriesIn(s.att.entries, 1) <==> s.att.entries[j].state == Loan;
  }

  lemma DirtyPending(s: State)
    requires TableOk(s.att)
    ensures Pending(s, Queue(s.att, Dirty))
    ensures forall j :: 0 <= j < |s.att.entries| ==> (j in Queue(s.att, Dirty) <==> InDirtyQueue(s.att.entries[j].state))
  {
    var q := Queue(s.att, Dirty);
    assert Listing(q, EntriesIn(s.att.entries, 3));
    assert forall k :: 0 <= k < |q| ==> q[k] in EntriesIn(s.att.entries, 3);
  }

  /** The flush: the dirty queue drains, no matter that some visits re-append to it. */
  lemma {:induction false} FlushOk(s: State)
    requires Core(s) && !s.ckpt && Queue(s.att, Loan) == []
    ensures CleanEntries(s, Queue(s.att, Dirty)).Ok?
    ensures var t := CleanEntries(s, Queue(s.att, Dirty)).value;
      && Cleans(s, t) && AllSettled(t.att.entries)
      && Queue(t.att, Dirty) == [] && Queue(t.att, Loan) == []
      && |Queue(t.att, Clean)| + |Queue(t.att, Free)| == |t.att.entries|
  {
    var q := Queue(s.att, Dirty);
    DirtyPending(s);
    WalkOk(s, q);
    var t := CleanEntries(s, q).value;
    forall j | 0 <= j < |t.att.entries| ensures Settled(t.att.entries[j]) {
      if j !in q {
        NoLoans(s, j);
      }
    }
    SettledQueues(t.att);
  }

  /** After the flush: statistics and dirty marks are dropped, and the phase changes. */
  ghost predicate Enters(s: State, t: State) {
    && t == s.(ckpt := true, att := t.att, ptt := t.ptt)
    && t.att == ClearStats(s.att) && Clear(s.ptt) == Ok(t.ptt)
  }

  lemma EnterPtt(s: State, t: State)
    requires PttOk(s.ptt) && Enters(s, t)
    ensures PttOk(t.ptt) && Idle(t.ptt) && DramWrites(t.ptt) == 0 && t.ptt.pages.Keys == s.ptt.pages.Keys
    ensures t.ptt.pageBlocks == s.ptt.pageBlocks && PagesRenewed(s.ptt.pages, t.ptt.pages)
    ensures t.ptt.totalNvm == s.ptt.totalNvm && t.ptt.totalDram == s.ptt.totalDram
  {
    ClearOk(s.ptt);
  }

  lemma EnterInv(s: State, t: State)
    requires Core(s) && !s.ckpt && AllSettled(s.att.entries) && Enters(s, t)
    ensures Inv(t) && forall g: nat :: Place(t, g) == Place(s, g)
  {
    EnterPtt(s, t);
    StatsOk(s.att, t.att.entries);
    OwnedSame(s, t);
    ExclusiveSame(s, t);
    CleanAtMost(t.att.entries);
  }

  lemma CleanAtMost(es: seq<Entry>)
    ensures |EntriesIn(es, 0)| <= |es|
  {
    RangeCardinality(|es|);
    SubsetCardinality(EntriesIn(es, 0), Range(|es|));
  }

  /** The blocks a client sees at the begin form the new image; each is intact in its place. */
  lemma EnterImage(t: State, flat: seq<Block>)
    requires Core(t) && t.ckpt && AllSettled(t.att.entries) && Shows(t, flat)
    ensures Retained(t, flat, NvmBlocks(t), Current)
  {
    var dom := NvmBlocks(t);
    var loc := map g | g in dom :: Place(t, g).base;
    forall g ensures HeldAt(t, flat, dom, loc, Current, g) {
      if g in dom {
        assert ShowsAt(t, flat, g);
        LiveTag(t, g);
      }
    }
    forall g, h ensures DistinctAt(dom, loc, g, h) {
      if g in dom && h in dom && g != h {
        NoAlias(t, g, h);
      }
    }
    assert Held(t, flat, dom, loc, Current);
  }

  /** A copy of the latest image is safe as a copy of the previous one. */
  lemma AgeImage(s: State, image: seq<Block>, dom: set<nat>)
    requires Core(s) && Retained(s, image, dom, Current)
    ensures Retained(s, image, dom, Previous)
  {
    var loc :| Held(s, image, dom, loc, Current);
    forall g ensures HeldAt(s, image, dom, loc, Previous, g) {
      assert HeldAt(s, image, dom, loc, Current, g);
      if g in dom && BackupCell(s, loc[g]) {
        BackupApart(s, loc[g]);
      }
    }
    assert Held(s, image, dom, loc, Previous);
  }

  lemma EnterKeeps(s: State, t: State)
    requires Core(s) && !s.ckpt && t.ckpt && t.mem == s.mem && t.nvm == s.nvm && t.phyBlocks == s.phyBlocks
    requires t.ptt.pageBlocks == s.ptt.pageBlocks && t.ptt.pages.Keys == s.ptt.pages.Keys
    requires forall g: nat :: Place(t, g) == Place(s, g)
    ensures Keeps(s, t, Previous)
  {
    forall image, dom | Retained(s, image, dom, Previous) ensures Retained(t, image, dom, Previous) {
      var loc :| Held(s, image, dom, loc, Previous);
      forall g ensures HeldAt(t, image, dom, loc, Previous, g) {
        assert HeldAt(s, image, dom, loc, Previous, g);
      }
      assert Held(t, image, dom, loc, Previous);
    }
  }

  ghost predicate CountersZero(es: seq<Entry>) {
    forall i :: 0 <= i < |es| ==> es[i].epochReads == 0 && es[i].epochWrites == 0
  }

  /** What BeginCheckpointing guarantees. */
  ghost predicate Begun(s: State, t: State, flat: seq<Block>) {
    && Inv(t) && t.ckpt && Shows(t, flat) && Retained(t, flat, NvmBlocks(t), Current)
    && (forall image, dom :: Retained(s, image, dom, Current) ==> Retained(t, image, dom, Previous))
    && Quiet(t) && Idle(t.ptt) && NvmWrites(t) == 0 && DramWrites(t.ptt) == 0
    && t.phyBlocks == s.phyBlocks && t.blockSize == s.blockSize && |t.att.entries| == |s.att.entries|
    && t.ptt.pageBlocks == s.ptt.pageBlocks && t.ptt.length == s.ptt.length && t.toNvm == s.toNvm
    && PagesRenewed(s.ptt.pages, t.ptt.pages)
    && CountersZero(t.att.entries)
    && t.nvm.base == s.nvm.base && t.nvm.backup0 == s.nvm.backup0 && t.nvm.backup1 == s.nvm.backup1
    && t.ptt.totalNvm == s.ptt.totalNvm && t.ptt.totalDram == s.ptt.totalDram && t.stats == s.stats
    && AllSettled(t.att.entries)
  }

  lemma {:induction false} BeginShape(s: State)
    requires Core(s) && !s.ckpt && Queue(s.att, Loan) == []
    ensures BeginCheckpointing(s).Ok?
    ensures var m := CleanEntries(s, Queue(s.att, Dirty));
      m.Ok? && Enters(m.value, BeginCheckpointing(s).value)
  {
    FlushOk(s);
    ClearOk(CleanEntries(s, Queue(s.att, Dirty)).value.ptt);
  }

  lemma BeginImages(s: State, m: State, t: State, flat: seq<Block>)
    requires Core(s) && Cleans(s, m) && !s.ckpt && AllSettled(m.att.entries) && Enters(m, t) && Shows(s, flat)
    ensures Shows(t, flat) && Retained(t, flat, NvmBlocks(t), Current)
    ensures forall image, dom :: Retained(s, image, dom, Current) ==> Retained(t, image, dom, Previous)
  {
    EnterPtt(m, t);
    EnterInv(m, t);
    forall g ensures ShowsAt(t, flat, g) {
      assert ShowsAt(s, flat, g) && SameView(s, m, g);
    }
    EnterImage(t, flat);
    EnterKeeps(m, t);
    forall image, dom | Retained(s, image, dom, Current) ensures Retained(t, image, dom, Previous) {
      AgeImage(s, image, dom);
    }
  }

  lemma EnterQuiet(s: State, t: State)
    requires Enters(s, t)
    ensures Quiet(t) && NvmWrites(t) == 0 && CountersZero(t.att.entries)
  {
    forall j ensures QuietAt(t, j) {}
    ZeroWrites(t.att.entries, |t.att.entries|);
  }

  /** BeginCheckpointing meets its assertions, shows the same memory, and retains two images. */
  lemma BeginOk(s: State, flat: seq<Block>)
    requires Inv(s) && !s.ckpt && Queue(s.att, Loan) == [] && Shows(s, flat)
    ensures BeginCheckpointing(s).Ok? && Begun(s, BeginCheckpointing(s).value, flat)
  {
    FlushOk(s);
    BeginShape(s);
    BegunFrom(s, CleanEntries(s, Queue(s.att, Dirty)).value, BeginCheckpointing(s).value, flat);
  }

  lemma BegunFrom(s: State, m: State, t: State, flat: seq<Block>)
    requires Inv(s) && !s.ckpt && Shows(s, flat) && Cleans(s, m) && AllSettled(m.att.entries) && Enters(m, t)
    requires Queue(m.att, Dirty) == [] && Queue(m.att, Loan) == []
    ensures Begun(s, t, flat)
  {
    EnterPtt(m, t);
    EnterInv(m, t);
    BeginImages(s, m, t, flat);
    EnterQuiet(m, t);
  }

  /** Once a checkpoint has begun, every write is let through, if there is any entry at all. */
  lemma BegunAdmits(t: State, x: nat)
    requires TableOk(t.att) && t.ckpt && AllSettled(t.att.entries)
    ensures Probe(t, x) == RegWrite <==> |t.att.entries| > 0
  {
    SettledQueues(t.att);
    assert TagOk(t.att, x);
  }

  /** Once it has also ended, a write is let through if its page is in DRAM, its block has an entry, or
      there are both an entry and a page to be had. */
  lemma SettledAdmits(t: State, x: nat)
    requires TableOk(t.att) && !t.ckpt && AllSettled(t.att.entries) && t.ptt.dirty == 0
    ensures Probe(t, x) == RegWrite <==>
      IsDram(t, x) || x in t.att.index || (|t.att.entries| > 0 && t.ptt.length > 0)
  {
    SettledQueues(t.att);
  }

  // ----- finish -----

  /** What FinishCheckpointing guarantees: the old generation is freed, the young one ages. */
  ghost predicate Finished(s: State, t: State) {
    && Inv(t) && !t.ckpt
    && (forall g :: SameView(s, t, g)) && Keeps(s, t, Current)
    && t == s.(ckpt := false, nvm := t.nvm)
    && t.nvm == s.nvm.(free := s.nvm.free + s.nvm.backup0, backup0 := s.nvm.backup1, backup1 := {})
  }

  lemma FinishOk(s: State)
    requires Inv(s) && s.ckpt
    ensures FinishCheckpointing(s).Ok? && Finished(s, FinishCheckpointing(s).value)
  {
    ClearBackupStep(s.nvm);
    var t := FinishCheckpointing(s).value;
    FinishInv(s, t);
    forall g: nat ensures SameView(s, t, g) {
      if g < s.phyBlocks {
        PlaceInside(s, g);
      }
    }
    forall image, dom | Retained(s, image, dom, Current) ensures Retained(t, image, dom, Current) {
      var loc :| Held(s, image, dom, loc, Current);
      forall g ensures HeldAt(t, image, dom, loc, Current, g) {
        assert HeldAt(s, image, dom, loc, Current, g);
      }
      assert Held(t, image, dom, loc, Current);
    }
  }

  lemma FinishInv(s: State, t: State)
    requires Inv(s) && s.ckpt && t == s.(ckpt := false, nvm := t.nvm) && Partition(t.nvm)
    requires t.nvm == s.nvm.(free := s.nvm.free + s.nvm.backup0, backup0 := s.nvm.backup1, backup1 := {})
    ensures Inv(t)
  {
    OwnedSame(s, t);
    ExclusiveSame(s, t);
  }
}
