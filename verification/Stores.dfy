/** Loads and stores: no assertion fails, other blocks keep their values, images stay retained. */
module Stores {
  import opened Outcomes
  import opened Lists
  import opened VersionBuffers
  import opened TranslationTables
  import opened PageTables
  import opened PageTableInvariants
  import opened Controllers
  import Ordering
  import opened ControllerInvariants
  import opened Translation
  import opened EntryMoves
  import opened Retention
  import opened StoreStats

  ghost predicate SameView(s: State, t: State, g: nat) {
    g < s.phyBlocks ==>
      Place(s, g).base < |s.mem| && Place(t, g).base < |t.mem| && View(t, g) == View(s, g)
  }

  /** States in which an entry has no stores of this epoch. */
  predicate Calm(st: EntryState) {
    st == Clean || st == Free || st == Loan
  }

  ghost predicate CalmAt(s: State, t: State, j: nat) {
    j < |s.att.entries| == |t.att.entries| ==>
      && t.att.entries[j].epochWrites == s.att.entries[j].epochWrites
      && (Calm(t.att.entries[j].state) ==> Calm(s.att.entries[j].state))
  }

  ghost predicate Base(s: State, t: State) {
    && t == s.(att := t.att, nvm := t.nvm, dram := t.dram, mem := t.mem, stats := t.stats)
    && |t.att.entries| == |s.att.entries| && t.nvm.base == s.nvm.base
    && s.nvm.backup0 <= t.nvm.backup0 && s.nvm.backup1 <= t.nvm.backup1
  }

  /** `t` follows `s` with no visible change outside block `x` (none at all if `x` is no block). */
  ghost predicate Through(s: State, t: State, x: nat) {
    && Inv(t) && Base(s, t)
    && (forall g :: g != x ==> SameView(s, t, g))
    && Keeps(s, t, Current) && (s.ckpt ==> Keeps(s, t, Previous))
    && (forall j :: CalmAt(s, t, j))
  }

  lemma ThroughTrans(s: State, t: State, u: State, x: nat)
    requires Through(s, t, x) && Through(t, u, x)
    ensures Through(s, u, x)
  {
    forall g | g != x ensures SameView(s, u, g) {
      assert SameView(s, t, g) && SameView(t, u, g);
    }
    KeepsTrans(s, t, u, Current);
    if s.ckpt {
      KeepsTrans(s, t, u, Previous);
    }
    forall j ensures CalmAt(s, u, j) {
      assert CalmAt(s, t, j) && CalmAt(t, u, j);
    }
  }

  lemma ThroughWeaken(s: State, t: State, x: nat)
    requires Through(s, t, s.phyBlocks)
    ensures Through(s, t, x) && SameView(s, t, x)
  {
    assert forall g :: g >= s.phyBlocks ==> SameView(s, t, g);
  }

  lemma InvSame(s: State, t: State)
    requires Inv(s) && TableOk(t.att) && PttOk(t.ptt) && SameEntries(s, t)
    requires t == s.(att := t.att, ptt := t.ptt, mem := t.mem, stats := t.stats)
    requires t.ptt.pageBlocks == s.ptt.pageBlocks && t.ptt.pages.Keys == s.ptt.pages.Keys
    requires |t.mem| == |s.mem| && forall a :: 0 <= a < |t.mem| ==> |t.mem[a]| == t.blockSize
    ensures Inv(t)
  {
    OwnedSame(s, t);
    ExclusiveSame(s, t);
    assert EntriesIn(t.att.entries, 0) == EntriesIn(s.att.entries, 0);
  }

  /** Table bookkeeping only: nothing moved. */
  lemma ThroughSame(s: State, t: State)
    requires Inv(s) && TableOk(t.att) && t == s.(att := t.att, stats := t.stats) && SameEntries(s, t)
    ensures Inv(t) && Base(s, t) && (forall g: nat :: Place(t, g) == Place(s, g) && SameView(s, t, g))
    ensures Keeps(s, t, Current) && Keeps(s, t, Previous)
  {
    InvSame(s, t);
    forall g: nat ensures Place(t, g) == Place(s, g) && SameView(s, t, g) {
      if g < s.phyBlocks {
        PlaceInside(s, g);
      }
    }
    KeepsSame(s, t, Current);
    KeepsSame(s, t, Previous);
  }

  lemma LookupThrough(s: State, x: nat)
    requires Inv(s)
    ensures Lookup(s.att, x).Ok?
    ensures var t := s.(att := Lookup(s.att, x).value.0);
      Through(s, t, s.phyBlocks) && forall g: nat :: Place(t, g) == Place(s, g)
  {
    LookupOk(s.att, x);
    var t := s.(att := Lookup(s.att, x).value.0);
    ThroughSame(s, t);
  }

  lemma StatsThrough(s: State, t: State)
    requires Inv(s) && t == s.(stats := t.stats)
    ensures Through(s, t, s.phyBlocks) && forall g: nat :: Place(t, g) == Place(s, g)
  {
    ThroughSame(s, t);
  }

  /** One block moved, gently. */
  lemma MovedThrough(s: State, t: State, x: nat, followed: bool, i: nat)
    requires Inv(s) && Inv(t) && Moves(s, t, x) && x < s.phyBlocks
    requires Place(s, x).base < |s.mem| && Place(t, x).base < |t.mem|
    requires followed ==> View(t, x) == View(s, x)
    requires Keeps(s, t, Current) && (s.ckpt ==> Keeps(s, t, Previous))
    requires i < |s.att.entries| && t.att.entries == s.att.entries[i := t.att.entries[i]]
    requires t.att.entries[i].epochWrites == s.att.entries[i].epochWrites
    requires Calm(t.att.entries[i].state) ==> Calm(s.att.entries[i].state)
    ensures Through(s, t, if followed then s.phyBlocks else x)
  {
    forall g: nat ensures g != x || followed ==> SameView(s, t, g) {
      if g < s.phyBlocks && g != x {
        MovesView(s, t, x, g);
      }
    }
  }

  // ----- making room -----

  lemma NonEmpty(s: State, i: nat)
    requires TableOk(s.att) && i < |s.att.entries|
    ensures Queue(s.att, s.att.entries[i].state) != []
  {
    var q := StateIndex(s.att.entries[i].state);
    assert Listing(s.att.queues[q], EntriesIn(s.att.entries, q));
    assert i in EntriesIn(s.att.entries, q);
  }

  lemma LiveTag(s: State, g: nat)
    requires TableOk(s.att)
    ensures g in s.att.index <==> Place(s, g).state != Free
    ensures g in s.att.index ==> s.att.index[g] < |s.att.entries| && s.att.entries[s.att.index[g]].tag == g
  {
    assert TagOk(s.att, g);
  }

  lemma FreeCleanThrough(s: State, i: nat)
    requires Inv(s) && Live(s, i, Clean)
    ensures FreeClean(s, i).Ok? && Through(s, FreeClean(s, i).value, s.phyBlocks)
    ensures Queue(FreeClean(s, i).value.att, Free) != []
    ensures forall g :: g !in s.att.index ==> g !in FreeClean(s, i).value.att.index
  {
    var x := s.att.entries[i].tag;
    FreeCleanStep(s, i);
    EntryPlace(s, i);
    var t := FreeClean(s, i).value;
    KeepsExchanged(s, t, x, Current);
    if s.ckpt {
      KeepsExchanged(s, t, x, Previous);
    }
    MovedThrough(s, t, x, true, i);
    NonEmpty(t, i);
    forall g | g !in s.att.index ensures g !in t.att.index {
      LiveTag(s, g);
      LiveTag(t, g);
    }
  }

  lemma FreeLoanThrough(s: State, i: nat, move: bool)
    requires Inv(s) && !s.ckpt && Live(s, i, Loan)
    ensures FreeLoan(s, i, move).Ok?
    ensures var t := FreeLoan(s, i, move).value;
      && Through(s, t, if move then s.phyBlocks else s.att.entries[i].tag)
      && Place(t, s.att.entries[i].tag) == Mapping(Free, s.att.entries[i].tag)
      && Queue(t.att, Free) != []
      && forall g :: g !in s.att.index ==> g !in t.att.index
  {
    var x := s.att.entries[i].tag;
    FreeLoanStep(s, i, move);
    assert SideOk(s, i);
    var t := FreeLoan(s, i, move).value;
    KeepsStable(s, t, x, Current);
    MovedThrough(s, t, x, move, i);
    NonEmpty(t, i);
    forall g | g !in s.att.index ensures g !in t.att.index {
      LiveTag(s, g);
      LiveTag(t, g);
    }
  }

  ghost predicate KeepsAbsent(s: State, t: State) {
    forall g :: g !in s.att.index ==> g !in t.att.index
  }

  /** After making room some entry is free, and no block gained an entry. */
  ghost predicate Room(s: State, r: Outcome<State>) {
    && r.Ok? && Through(s, r.value, s.phyBlocks)
    && Queue(r.value.att, Free) != [] && KeepsAbsent(s, r.value)
  }

  lemma RoomCounted(s: State, m: State, t: State)
    requires Room(s, Ok(m)) && t == m.(stats := t.stats)
    ensures Room(s, Ok(t))
  {
    StatsThrough(m, t);
    ThroughTrans(s, m, t, s.phyBlocks);
  }

  lemma EvictCleanRoom(s: State)
    requires Inv(s) && (Queue(s.att, Free) != [] || Queue(s.att, Clean) != [])
    ensures Room(s, EvictClean(s))
  {
    if Queue(s.att, Free) == [] {
      var i := Queue(s.att, Clean)[0];
      FrontEntry(s, Clean);
      FreeCleanThrough(s, i);
      RoomCounted(s, FreeClean(s, i).value, EvictClean(s).value);
    } else {
      StatsThrough(s, Hit(s));
    }
  }

  lemma EvictAnyRoom(s: State)
    requires Inv(s) && !s.ckpt && (Queue(s.att, Free) != [] || Queue(s.att, Loan) != [] || Queue(s.att, Clean) != [])
    ensures Room(s, EvictAny(s))
  {
    if Queue(s.att, Free) == [] {
      if Queue(s.att, Loan) != [] {
        var i := Queue(s.att, Loan)[0];
        FrontEntry(s, Loan);
        FreeLoanThrough(s, i, true);
        RoomCounted(s, FreeLoan(s, i, true).value, EvictAny(s).value);
      } else {
        var i := Queue(s.att, Clean)[0];
        FrontEntry(s, Clean);
        FreeCleanThrough(s, i);
        RoomCounted(s, FreeClean(s, i).value, EvictAny(s).value);
      }
    } else {
      StatsThrough(s, Hit(s));
    }
  }

  // ----- stores to NVM pages -----

  /** Block `x` is now written through entry `i`, at `to`. */
  ghost predicate Opened(s: State, t: State, x: nat, i: nat, to: nat, full: bool) {
    && Through(s, t, x) && (!full ==> SameView(s, t, x))
    && Place(t, x).base == to && i < |t.att.entries| && !Calm(t.att.entries[i].state)
    && Place(t, x).state == t.att.entries[i].state
  }

  lemma NewEntryOpened(s: State, m: State, t: State, x: nat, i: nat, to: nat, st: EntryState, full: bool)
    requires Inv(s) && Through(s, m, s.phyBlocks) && x < s.phyBlocks && x !in m.att.index
    requires Moved(m, t, x, st, to, !full) && Spent(t) == Spent(m) && t.mem[x] == m.mem[x]
    requires st == Dirty || st == Stained
    requires Live(m, i, Free) && t.att.entries == m.att.entries[i := m.att.entries[i].(state := st, tag := x, base := to)]
    ensures Opened(s, t, x, i, to, full)
  {
    LiveTag(m, x);
    KeepsMoved(m, t, x, Current);
    KeepsMoved(m, t, x, Previous);
    MovedThrough(m, t, x, !full, i);
    ThroughWeaken(s, m, x);
    if !full {
      ThroughWeaken(m, t, x);
    }
    ThroughTrans(s, m, t, x);
  }

  lemma NvmMissRunningOk(s: State, x: nat, full: bool)
    requires Inv(s) && !s.ckpt && x < s.phyBlocks && x !in s.att.index && !IsDram(s, x)
    requires Queue(s.att, Free) != [] || Queue(s.att, Loan) != [] || Queue(s.att, Clean) != []
    ensures NvmMissRunning(s, x, full).Ok?
    ensures var (t, i, to) := NvmMissRunning(s, x, full).value; Opened(s, t, x, i, to, full)
  {
    EvictAnyRoom(s);
    var m := EvictAny(s).value;
    NewDirtyStep(m, x, !full);
    var (t, i, to) := NvmMissRunning(s, x, full).value;
    NewEntryOpened(s, m, t, x, i, to, Dirty, full);
  }

  lemma NvmMissCkptOk(s: State, x: nat, full: bool)
    requires Inv(s) && s.ckpt && x < s.phyBlocks && x !in s.att.index && !IsDram(s, x)
    requires Queue(s.att, Free) != [] || Queue(s.att, Clean) != []
    ensures NvmMissCkpt(s, x, full).Ok?
    ensures var (t, i, to) := NvmMissCkpt(s, x, full).value; Opened(s, t, x, i, to, full)
  {
    EvictCleanRoom(s);
    var m := EvictClean(s).value;
    NewBufferedStep(m, x, Stained, !full);
    var (t, i, to) := NvmMissCkpt(s, x, full).value;
    NewEntryOpened(s, m, t, x, i, to, Stained, full);
  }

  /** An entry changed state in place of its block. */
  lemma EntryOpened(s: State, t: State, i: nat, st: EntryState, to: nat, full: bool)
    requires Inv(s) && Inv(t) && i < |s.att.entries| && s.att.entries[i].state != Free
    requires Moved(s, t, s.att.entries[i].tag, st, to, !full) && !Calm(st)
    requires t.att.entries == s.att.entries[i := s.att.entries[i].(state := st, base := to)]
    requires Gentle(s, t, s.att.entries[i].tag, Current) && (s.ckpt ==> Gentle(s, t, s.att.entries[i].tag, Previous))
    ensures Opened(s, t, s.att.entries[i].tag, i, to, full)
  {
    var x := s.att.entries[i].tag;
    KeepsMoved(s, t, x, Current);
    if s.ckpt {
      KeepsMoved(s, t, x, Previous);
    }
    MovedThrough(s, t, x, !full, i);
    if !full {
      ThroughWeaken(s, t, x);
    }
  }

  lemma HideTempOpened(s: State, i: nat, full: bool)
    requires Inv(s) && !s.ckpt && Live(s, i, Temp)
    ensures HideTemp(s, i, !full).Ok?
    ensures Opened(s, HideTemp(s, i, !full).value, s.att.entries[i].tag, i, s.att.entries[i].tag, full)
  {
    EntryPlace(s, i);
    HideTempStep(s, i, !full);
    EntryOpened(s, HideTemp(s, i, !full).value, i, Hidden, s.att.entries[i].tag, full);
  }

  lemma DirtyStainedOpened(s: State, i: nat, full: bool)
    requires Inv(s) && !s.ckpt && Live(s, i, Stained)
    ensures DirtyStained(s, i, !full).Ok?
    ensures var (t, to) := DirtyStained(s, i, !full).value; Opened(s, t, s.att.entries[i].tag, i, to, full)
  {
    EntryPlace(s, i);
    DirtyStainedStep(s, i, !full);
    var (t, to) := DirtyStained(s, i, !full).value;
    EntryOpened(s, t, i, Dirty, to, full);
  }

  lemma HideCleanOpened(s: State, i: nat, full: bool)
    requires Inv(s) && !s.ckpt && Live(s, i, Clean)
    ensures HideClean(s, i, !full).Ok?
    ensures Opened(s, HideClean(s, i, !full).value, s.att.entries[i].tag, i, s.att.entries[i].tag, full)
  {
    EntryPlace(s, i);
    HideCleanStep(s, i, !full);
    EntryOpened(s, HideClean(s, i, !full).value, i, Hidden, s.att.entries[i].tag, full);
  }

  lemma AlreadyOpened(s: State, i: nat, full: bool)
    requires Inv(s) && i < |s.att.entries| && !Calm(s.att.entries[i].state)
    ensures Opened(s, s, s.att.entries[i].tag, i, s.att.entries[i].base, full)
  {
    EntryPlace(s, i);
    StatsThrough(s, s);
    ThroughWeaken(s, s, s.att.entries[i].tag);
  }

  lemma NvmHitRunningOk(s: State, i: nat, full: bool)
    requires Inv(s) && !s.ckpt && i < |s.att.entries| && s.att.entries[i].state != Free
    requires !IsDram(s, s.att.entries[i].tag)
    ensures NvmHitRunning(s, i, s.att.entries[i].tag, full).Ok?
    ensures var (t, to) := NvmHitRunning(s, i, s.att.entries[i].tag, full).value;
      Opened(s, t, s.att.entries[i].tag, i, to, full)
  {
    assert SideOk(s, i);
    match s.att.entries[i].state
    case Temp =>
      HideTempStep(s, i, !full);
      HideTempOpened(s, i, full);
    case Stained => DirtyStainedOpened(s, i, full);
    case Clean => HideCleanOpened(s, i, full);
    case Dirty => AlreadyOpened(s, i, full);
    case Hidden => AlreadyOpened(s, i, full);
    case Loan =>
    case Free =>
  }

  lemma NvmHitCkptOk(s: State, i: nat, full: bool)
    requires Inv(s) && s.ckpt && i < |s.att.entries| && s.att.entries[i].state != Free
    requires !IsDram(s, s.att.entries[i].tag)
    ensures NvmHitCkpt(s, i, full).Ok?
    ensures var (t, to) := NvmHitCkpt(s, i, full).value; Opened(s, t, s.att.entries[i].tag, i, to, full)
  {
    assert EntryOk(s, i) && SideOk(s, i);
    EntryPlace(s, i);
    if s.att.entries[i].state == Clean {
      ResetCleanStep(s, i, !full);
      var (t, to) := ResetClean(s, i, !full).value;
      EntryOpened(s, t, i, Temp, to, full);
    } else {
      AlreadyOpened(s, i, full);
    }
  }

  // ----- write counters -----

  lemma {:induction false} EntryWritesSame(es: seq<Entry>, fs: seq<Entry>, n: nat)
    requires n <= |es| == |fs| && forall j :: 0 <= j < n ==> fs[j].epochWrites == es[j].epochWrites
    ensures EntryWrites(fs, n) == EntryWrites(es, n)
  {
    if n > 0 {
      EntryWritesSame(es, fs, n - 1);
    }
  }

  lemma {:induction false} EntryWritesAdd(es: seq<Entry>, i: nat, n: nat)
    requires n <= |es| && i < |es|
    ensures EntryWrites(es[i := es[i].(epochWrites := es[i].epochWrites + 1)], n) == EntryWrites(es, n) + Bit(i < n)
  {
    if n > 0 {
      EntryWritesAdd(es, i, n - 1);
    }
  }

  ghost function NvmWrites(s: State): nat {
    EntryWrites(s.att.entries, |s.att.entries|)
  }

  ghost predicate QuietAt(s: State, j: nat) {
    j < |s.att.entries| && Calm(s.att.entries[j].state) ==> s.att.entries[j].epochWrites == 0
  }

  /** Clean, free and loaned entries carry no stores of this epoch. */
  ghost predicate Quiet(s: State) {
    forall j :: QuietAt(s, j)
  }

  lemma ThroughCounts(s: State, t: State, x: nat)
    requires Through(s, t, x)
    ensures NvmWrites(t) == NvmWrites(s) && (Quiet(s) ==> Quiet(t))
  {
    forall j | 0 <= j < |s.att.entries| ensures t.att.entries[j].epochWrites == s.att.entries[j].epochWrites {
      assert CalmAt(s, t, j);
    }
    EntryWritesSame(s.att.entries, t.att.entries, |s.att.entries|);
    if Quiet(s) {
      forall j ensures QuietAt(t, j) {
        assert QuietAt(s, j) && CalmAt(s, t, j);
      }
    }
  }

  // ----- the effect of a whole step -----

  ghost predicate SameSetup(s: State, t: State) {
    && t.phyBlocks == s.phyBlocks && t.blockSize == s.blockSize && t.ckpt == s.ckpt
    && |t.att.entries| == |s.att.entries| && t.nvm.base == s.nvm.base
    && t.ptt.pageBlocks == s.ptt.pageBlocks && t.ptt.length == s.ptt.length && t.toNvm == s.toNvm
    && t.ptt.pages.Keys == s.ptt.pages.Keys
    && t.ptt.nvmFilled == s.ptt.nvmFilled && (Idle(s.ptt) ==> Idle(t.ptt))
    && t.ptt.totalNvm == s.ptt.totalNvm && t.ptt.totalDram == s.ptt.totalDram
    && s.nvm.backup0 <= t.nvm.backup0 && s.nvm.backup1 <= t.nvm.backup1
  }

  /** `t` follows `s`; no block but `x` changed its value, retained images stay retained. */
  ghost predicate Follows(s: State, t: State, x: nat) {
    && Inv(t) && SameSetup(s, t)
    && (forall g :: g != x ==> SameView(s, t, g))
    && Keeps(s, t, Current) && (s.ckpt ==> Keeps(s, t, Previous))
    && (Quiet(s) ==> Quiet(t))
  }

  lemma FollowsTrans(s: State, t: State, u: State, x: nat)
    requires Follows(s, t, x) && Follows(t, u, x)
    ensures Follows(s, u, x)
  {
    forall g | g != x ensures SameView(s, u, g) {
      assert SameView(s, t, g) && SameView(t, u, g);
    }
    KeepsTrans(s, t, u, Current);
    if s.ckpt {
      KeepsTrans(s, t, u, Previous);
    }
  }

  /** A page-table update that keeps the set of resident pages. */
  lemma PttFollows(s: State, t: State)
    requires Inv(s) && t == s.(ptt := t.ptt, stats := t.stats) && PttOk(t.ptt) && SameSetup(s, t)
    ensures Follows(s, t, s.phyBlocks) && NvmWrites(t) == NvmWrites(s)
    ensures forall g: nat :: Place(t, g) == Place(s, g)
  {
    InvSame(s, t);
    forall g: nat ensures Place(t, g) == Place(s, g) && SameView(s, t, g) {
      if g < s.phyBlocks {
        PlaceInside(s, g);
      }
    }
    KeepsSame(s, t, Current);
    KeepsSame(s, t, Previous);
    if Quiet(s) {
      forall j ensures QuietAt(t, j) {
        assert QuietAt(s, j);
      }
    }
  }

  lemma ThroughFollows(s: State, t: State, x: nat)
    requires Inv(s) && Through(s, t, x)
    ensures Follows(s, t, x) && NvmWrites(t) == NvmWrites(s)
  {
    ThroughCounts(s, t, x);
  }

  // ----- loads -----

  ghost predicate LoadYields(s: State, x: nat, t: State, a: nat) {
    forall u {:trigger Unlocked(u)} :: Unlocked(u) ==> LoadBlock(s, x) == Ok((t, a))
  }

  /** A load changes nothing visible and no counter of stores. */
  ghost predicate Untouched(s: State, t: State) {
    && Follows(s, t, s.phyBlocks) && NvmWrites(t) == NvmWrites(s)
    && DramWrites(t.ptt) == DramWrites(s.ptt) && t.stats == s.stats && t.mem == s.mem
  }

  lemma LoadHit(s: State, m: State, x: nat) returns (t: State)
    requires Inv(s) && x in s.att.index && Lookup(s.att, x) == Ok((m.att, Some(s.att.index[x])))
    requires m == s.(att := m.att) && Through(s, m, s.phyBlocks)
    ensures LoadYields(s, x, t, Place(s, x).base) && Untouched(s, t)
  {
    LiveTag(s, x);
    t := m.(att := AddRead(m.att, s.att.index[x]).value);
    StatsOk(m.att, t.att.entries);
    ThroughSame(m, t);
    ThroughTrans(s, m, t, s.phyBlocks);
    ThroughFollows(s, t, s.phyBlocks);
  }

  lemma LoadMiss(s: State, m: State, x: nat) returns (t: State)
    requires Inv(s) && x !in s.att.index && Lookup(s.att, x) == Ok((m.att, None))
    requires m == s.(att := m.att) && Through(s, m, s.phyBlocks)
    ensures LoadYields(s, x, t, x) && Untouched(s, t)
  {
    ThroughFollows(s, m, s.phyBlocks);
    if IsDram(s, x) {
      LoadPage(s, x);
      t := m.(ptt := AddPageRead(s.ptt, PageNumber(x, s.ptt.pageBlocks)).value);
      PttFollows(m, t);
      FollowsTrans(s, m, t, s.phyBlocks);
    } else {
      t := m;
    }
  }

  /** LoadAddr never fails, changes nothing visible, and returns the block's machine address. */
  lemma LoadBlockOk(s: State, x: nat) returns (t: State)
    requires Inv(s) && x < s.phyBlocks
    ensures LoadYields(s, x, t, Place(s, x).base) && Untouched(s, t)
    ensures Ordering.MovesLast(s.att, t.att, x) && ReadOnce(s, t, x)
  {
    LookupThrough(s, x);
    LiveTag(s, x);
    var m := s.(att := Lookup(s.att, x).value.0);
    if x in s.att.index {
      t := LoadHit(s, m, x);
    } else {
      t := LoadMiss(s, m, x);
    }
    LoadUses(s, x, t, Place(s, x).base);
  }

  /** One read is counted, by the block's entry or else by its page in DRAM. */
  ghost predicate ReadOnce(s: State, t: State, x: nat) {
    && t == s.(att := t.att, ptt := t.ptt) && t.att.index == s.att.index && |t.att.entries| == |s.att.entries|
    && t.ptt == s.ptt.(pages := t.ptt.pages) && t.ptt.pages.Keys == s.ptt.pages.Keys
    && (forall i :: 0 <= i < |s.att.entries| ==>
          EntryRead(s.att.entries[i], t.att.entries[i], x in s.att.index && i == s.att.index[x]))
    && (forall g :: g in s.ptt.pages ==>
          PageRead(s.ptt.pages[g], t.ptt.pages[g], x !in s.att.index && g == PageNumber(x, s.ptt.pageBlocks)))
  }

  ghost predicate EntryRead(e: Entry, f: Entry, read: bool) {
    f == e.(epochReads := e.epochReads + Bit(read))
  }

  ghost predicate PageRead(e: Page, f: Page, read: bool) {
    f == e.(epochReads := e.epochReads + Bit(read))
  }

  /** The entry or page is the one read, and the entry is used last. */
  lemma LoadUses(s: State, x: nat, t: State, to: nat)
    requires TableOk(s.att) && PttOk(s.ptt) && LoadYields(s, x, t, to)
    ensures Ordering.MovesLast(s.att, t.att, x) && ReadOnce(s, t, x)
  {
    LoadLast(s, x, t, to);
    LoadCounts(s, x, t, to);
  }

  lemma LoadLast(s: State, x: nat, t: State, to: nat)
    requires TableOk(s.att) && LoadYields(s, x, t, to)
    ensures Ordering.MovesLast(s.att, t.att, x)
  {
    assert Unlocked(0);
    Ordering.LoadMoves(s, x);
  }

  lemma LoadCounts(s: State, x: nat, t: State, to: nat)
    requires TableOk(s.att) && PttOk(s.ptt) && LoadYields(s, x, t, to)
    ensures ReadOnce(s, t, x)
  {
    assert TagOk(s.att, x);
    if x in s.att.index {
      EntryCounts(s, x, t, to);
    } else {
      PageCounts(s, x, t, to);
    }
  }

  lemma EntryCounts(s: State, x: nat, t: State, to: nat)
    requires TagOk(s.att, x) && x in s.att.index && LoadYields(s, x, t, to)
    ensures ReadOnce(s, t, x)
  {
    assert Unlocked(0);
    var (att, hit) := Lookup(s.att, x).value;
    assert t == s.(att := AddRead(att, hit.value).value);
  }

  lemma PageCounts(s: State, x: nat, t: State, to: nat)
    requires PttOk(s.ptt) && x !in s.att.index && LoadYields(s, x, t, to)
    ensures ReadOnce(s, t, x)
  {
    assert Unlocked(0);
    var g := PageNumber(x, s.ptt.pageBlocks);
    if g in s.ptt.pages {
      assert t == s.(ptt := AddPageRead(s.ptt, g).value);
    } else {
      assert t == s;
    }
  }

  lemma PageHome(x: nat, k: Positive)
    ensures PageTranslate(x, PageNumber(x, k), k) == x
  {
  }

  lemma LoadPage(s: State, x: nat)
    requires PttOk(s.ptt) && IsDram(s, x)
    ensures var k, g := s.ptt.pageBlocks, PageNumber(x, s.ptt.pageBlocks);
      && s.ptt.pages[g].base == g && PageTranslate(x, g, k) == x
      && AddPageRead(s.ptt, g).Ok?
      && var p := AddPageRead(s.ptt, g).value;
      && PttOk(p) && p.pages.Keys == s.ptt.pages.Keys && DramWrites(p) == DramWrites(s.ptt)
      && p == s.ptt.(pages := p.pages)
  {
    var g := PageNumber(x, s.ptt.pageBlocks);
    PageHome(x, s.ptt.pageBlocks);
    var e := s.ptt.pages[g];
    var f := e.(epochReads := e.epochReads + 1);
    DirtyCount(s.ptt.pages, g, f);
    PageUpdateOk(s.ptt, g, f, AddPageRead(s.ptt, g).value);
  }

  // ----- stores -----

  /** The block may be overwritten in place without touching a retained copy. */
  ghost predicate Writable(s: State, x: nat) {
    var st := Place(s, x).state;
    IsDram(s, x) || st == Dirty || st == Hidden || st == Temp || st == Stained
  }

  ghost predicate Stored(s: State, t: State, x: nat, to: nat, full: bool) {
    && Follows(s, t, x) && (!full ==> SameView(s, t, x))
    && Place(t, x).base == to && Writable(t, x)
  }

  lemma CountWrite(s: State, x: nat, i: nat)
    requires Inv(s) && i < |s.att.entries| && !Calm(s.att.entries[i].state)
    ensures AddWrite(s.att, i).Ok?
    ensures var t := s.(att := AddWrite(s.att, i).value);
      && Follows(s, t, s.phyBlocks) && NvmWrites(t) == NvmWrites(s) + 1
      && forall g: nat :: Place(t, g) == Place(s, g)
  {
    var t := s.(att := AddWrite(s.att, i).value);
    StatsOk(s.att, t.att.entries);
    ThroughSame(s, t);
    EntryWritesAdd(s.att.entries, i, |s.att.entries|);
    if Quiet(s) {
      forall j ensures QuietAt(t, j) {
        assert QuietAt(s, j);
      }
    }
  }

  lemma OpenedStored(s: State, m: State, x: nat, i: nat, to: nat, full: bool)
    requires Inv(s) && Opened(s, m, x, i, to, full)
    ensures AddWrite(m.att, i).Ok?
    ensures var t := m.(att := AddWrite(m.att, i).value);
      Stored(s, t, x, to, full) && NvmWrites(t) == NvmWrites(s) + 1
  {
    ThroughFollows(s, m, x);
    CountWrite(m, x, i);
    var t := m.(att := AddWrite(m.att, i).value);
    FollowsTrans(s, m, t, x);
  }

  lemma NvmStoreOk(s: State, x: nat, full: bool)
    requires Inv(s) && x < s.phyBlocks && !IsDram(s, x) && HasRoom(s, x)
    ensures NvmStore(s, x, full).Ok?
    ensures var (t, to) := NvmStore(s, x, full).value;
      Stored(s, t, x, to, full) && NvmWrites(t) == NvmWrites(s) + 1 && t.ptt == s.ptt
  {
    LookupThrough(s, x);
    LiveTag(s, x);
    var m := s.(att := Lookup(s.att, x).value.0);
    if x in s.att.index {
      NvmHitStored(s, m, x, s.att.index[x], full);
    } else {
      NvmMissStored(s, x, full);
    }
  }

  lemma NvmMissStored(s: State, x: nat, full: bool)
    requires Inv(s) && x < s.phyBlocks && !IsDram(s, x) && HasRoom(s, x) && x !in s.att.index
    ensures NvmStore(s, x, full).Ok?
    ensures var (t, to) := NvmStore(s, x, full).value;
      Stored(s, t, x, to, full) && NvmWrites(t) == NvmWrites(s) + 1 && t.ptt == s.ptt
  {
    assert s.(att := s.att) == s;
    if s.ckpt {
      NvmMissCkptOk(s, x, full);
      var (m, i, to) := NvmMissCkpt(s, x, full).value;
      OpenedStored(s, m, x, i, to, full);
    } else {
      NvmMissRunningOk(s, x, full);
      var (m, i, to) := NvmMissRunning(s, x, full).value;
      OpenedStored(s, m, x, i, to, full);
    }
  }

  lemma NvmHitStored(s: State, m: State, x: nat, i: nat, full: bool)
    requires Inv(s) && x < s.phyBlocks && !IsDram(s, x) && x in s.att.index && i == s.att.index[x]
    requires Lookup(s.att, x).Ok? && m == s.(att := Lookup(s.att, x).value.0)
    requires Through(s, m, s.phyBlocks)
    ensures NvmStore(s, x, full).Ok?
    ensures var (t, to) := NvmStore(s, x, full).value;
      Stored(s, t, x, to, full) && NvmWrites(t) == NvmWrites(s) + 1 && t.ptt == s.ptt
  {
    LiveTag(s, x);
    var u, to := HitReopened(s, m, x, i, full);
    OpenedStored(s, u, x, i, to, full);
    NvmHitUnfold(s, m, x, i, full, u, to);
  }

  lemma HitReopened(s: State, m: State, x: nat, i: nat, full: bool) returns (u: State, to: nat)
    requires Inv(s) && m == s.(att := m.att) && Through(s, m, s.phyBlocks) && m.att.entries == s.att.entries
    requires i < |s.att.entries| && s.att.entries[i].state != Free && s.att.entries[i].tag == x && !IsDram(s, x)
    requires x < s.phyBlocks
    ensures (if s.ckpt then NvmHitCkpt(Hit(m), i, full) else NvmHitRunning(Hit(m), i, x, full)) == Ok((u, to))
    ensures Opened(s, u, x, i, to, full) && u.ptt == s.ptt
  {
    var h := Hit(m);
    StatsThrough(m, h);
    ThroughTrans(s, m, h, s.phyBlocks);
    u, to := HitOpened(h, i, full);
    ThroughWeaken(s, h, x);
    ThroughTrans(s, h, u, x);
  }

  lemma NvmHitUnfold(s: State, m: State, x: nat, i: nat, full: bool, u: State, to: nat)
    requires Lookup(s.att, x) == Ok((m.att, Some(i))) && m == s.(att := m.att) && AddWrite(u.att, i).Ok?
    requires (if s.ckpt then NvmHitCkpt(Hit(m), i, full) else NvmHitRunning(Hit(m), i, x, full)) == Ok((u, to))
    ensures NvmStore(s, x, full) == Ok((u.(att := AddWrite(u.att, i).value), to))
  {
  }

  lemma HitOpened(s: State, i: nat, full: bool) returns (u: State, to: nat)
    requires Inv(s) && i < |s.att.entries| && s.att.entries[i].state != Free && !IsDram(s, s.att.entries[i].tag)
    ensures (if s.ckpt then NvmHitCkpt(s, i, full) else NvmHitRunning(s, i, s.att.entries[i].tag, full)) == Ok((u, to))
    ensures Opened(s, u, s.att.entries[i].tag, i, to, full)
  {
    if s.ckpt {
      NvmHitCkptOk(s, i, full);
      u, to := NvmHitCkpt(s, i, full).value.0, NvmHitCkpt(s, i, full).value.1;
    } else {
      NvmHitRunningOk(s, i, full);
      var r := NvmHitRunning(s, i, s.att.entries[i].tag, full).value;
      u, to := r.0, r.1;
    }
  }

  // ----- stores to DRAM pages -----

  lemma MovedDram(s: State, t: State, x: nat, followed: bool, i: nat)
    requires Inv(s) && Inv(t) && IsDram(s, x) && Moved(s, t, x, Place(t, x).state, Place(t, x).base, followed)
    requires i < |s.att.entries| && t.att.entries == s.att.entries[i := t.att.entries[i]]
    requires t.att.entries[i].epochWrites == s.att.entries[i].epochWrites && Calm(s.att.entries[i].state)
    ensures Through(s, t, x) && (followed ==> SameView(s, t, x))
  {
    KeepsStable(s, t, x, Current);
    KeepsStable(s, t, x, Previous);
    MovedThrough(s, t, x, followed, i);
    if followed {
      ThroughWeaken(s, t, x);
    }
  }

  /** The block of a page in DRAM is open for writing. */
  ghost predicate OpenedDram(s: State, t: State, x: nat, to: nat, full: bool) {
    Through(s, t, x) && (!full ==> SameView(s, t, x)) && Place(t, x).base == to
  }

  lemma LoanMissOpened(s: State, x: nat, full: bool)
    requires Inv(s) && s.ckpt && x < s.phyBlocks && x !in s.att.index && IsDram(s, x)
    requires Queue(s.att, Free) != [] || Queue(s.att, Clean) != []
    ensures DramStore(s, x, full).Ok?
    ensures var (t, to) := DramStore(s, x, full).value; OpenedDram(s, t, x, to, full)
  {
    assert s.(att := s.att) == s;
    EvictCleanRoom(s);
    var m := EvictClean(s).value;
    NewBufferedStep(m, x, Loan, !full);
    var (dram, to) := Alloc(m.dram).value;
    var (t, i) := Controllers.Setup(m.(dram := dram), x, to, Loan, !full).value;
    MovedDram(m, t, x, !full, i);
    ThroughWeaken(s, m, x);
    ThroughTrans(s, m, t, x);
  }

  lemma LoanHitOpened(s: State, x: nat, full: bool)
    requires Inv(s) && x < s.phyBlocks && x in s.att.index && IsDram(s, x)
    ensures DramStore(s, x, full).Ok?
    ensures var (t, to) := DramStore(s, x, full).value; OpenedDram(s, t, x, to, full)
  {
    LookupThrough(s, x);
    LiveTag(s, x);
    var m := s.(att := Lookup(s.att, x).value.0);
    var h := Hit(m);
    StatsThrough(m, h);
    ThroughTrans(s, m, h, s.phyBlocks);
    ThroughWeaken(s, h, x);
    var i := s.att.index[x];
    assert SideOk(h, i);
    if !s.ckpt {
      FreeLoanThrough(h, i, !full);
      var t := FreeLoan(h, i, !full).value;
      if !full {
        ThroughWeaken(h, t, x);
      }
      ThroughTrans(s, h, t, x);
    }
  }

  lemma DramStoreOk(s: State, x: nat, full: bool)
    requires Inv(s) && x < s.phyBlocks && IsDram(s, x) && HasRoom(s, x)
    ensures DramStore(s, x, full).Ok?
    ensures var (t, to) := DramStore(s, x, full).value;
      && Stored(s, t, x, to, full) && NvmWrites(t) == NvmWrites(s) && t.ptt == s.ptt
  {
    LiveTag(s, x);
    if x in s.att.index {
      LoanHitOpened(s, x, full);
    } else if s.ckpt {
      LoanMissOpened(s, x, full);
    } else {
      assert s.(att := s.att) == s;
      StatsThrough(s, DramStore(s, x, full).value.0);
      ThroughWeaken(s, DramStore(s, x, full).value.0, x);
    }
    ThroughFollows(s, DramStore(s, x, full).value.0, x);
  }

  /** StoreAddr ends in `t` and returns machine block `to`: no assertion on the way fails. */
  ghost predicate StoreYields(s: State, x: nat, full: bool, t: State, to: nat) {
    forall u {:trigger Unlocked(u)} :: Unlocked(u) ==> StoreBlock(s, x, full) == Ok((t, to))
  }

  /** A store that has room completes with every assertion holding, leaves all other blocks and all
      retained images alone, and is counted exactly once. */
  lemma StoreBlockOk(s: State, x: nat, full: bool) returns (t: State, to: nat)
    requires Inv(s) && x < s.phyBlocks && HasRoom(s, x)
    ensures StoreYields(s, x, full, t, to) && Stored(s, t, x, to, full)
    ensures NvmWrites(t) == NvmWrites(s) + Bit(!IsDram(s, x))
    ensures DramWrites(t.ptt) == DramWrites(s.ptt) + Bit(IsDram(s, x))
    ensures Booked(s, t.stats, x)
  {
    if IsDram(s, x) {
      t, to := StoreDramOk(s, x, full);
    } else {
      t, to := StoreNvmOk(s, x, full);
    }
  }

  lemma StoreNvmOk(s: State, x: nat, full: bool) returns (t: State, to: nat)
    requires Inv(s) && x < s.phyBlocks && HasRoom(s, x) && !IsDram(s, x)
    ensures StoreYields(s, x, full, t, to) && Stored(s, t, x, to, full) && Booked(s, t.stats, x)
    ensures NvmWrites(t) == NvmWrites(s) + 1 && DramWrites(t.ptt) == DramWrites(s.ptt)
  {
    var m := s.(stats := s.stats.(nvmWrites := s.stats.nvmWrites + 1));
    PttFollows(s, m);
    RouteNvm(s, x, m);
    NvmStoreOk(m, x, full);
    t, to := NvmStore(m, x, full).value.0, NvmStore(m, x, full).value.1;
    StoreUnfold(s, x, full, m, false, t, to);
    StoreNvmStats(s, m, x, full, t, to);
    StoredAfter(s, m, t, x, to, full);
  }

  lemma StoreDramOk(s: State, x: nat, full: bool) returns (t: State, to: nat)
    requires Inv(s) && x < s.phyBlocks && HasRoom(s, x) && IsDram(s, x)
    ensures StoreYields(s, x, full, t, to) && Stored(s, t, x, to, full) && Booked(s, t.stats, x)
    ensures NvmWrites(t) == NvmWrites(s) && DramWrites(t.ptt) == DramWrites(s.ptt) + 1
  {
    var g := PageNumber(x, s.ptt.pageBlocks);
    RecordWriteOk(s.ptt, g);
    var m := s.(ptt := RecordWrite(s.ptt, g).value, stats := s.stats.(dramWrites := s.stats.dramWrites + 1));
    PttFollows(s, m);
    RouteDram(s, x, m, g);
    DramStoreOk(m, x, full);
    t, to := DramStore(m, x, full).value.0, DramStore(m, x, full).value.1;
    StoreUnfold(s, x, full, m, true, t, to);
    StoreDramStats(s, m, x, full, t, to);
    StoredAfter(s, m, t, x, to, full);
  }

  lemma StoreUnfold(s: State, x: nat, full: bool, m: State, dram: bool, t: State, to: nat)
    requires RouteStore(s, x) == Ok((m, dram))
    requires (if dram then DramStore(m, x, full) else NvmStore(m, x, full)) == Ok((t, to))
    ensures StoreYields(s, x, full, t, to)
  {
  }

  // ----- when a store completes -----

  /** Without room the source fails an assertion. */
  lemma StoreAborts(s: State, x: nat, full: bool)
    requires Inv(s) && x < s.phyBlocks && !HasRoom(s, x)
    ensures StoreBlock(s, x, full) == Abort
  {
    var r := RouteStore(s, x);
    if IsDram(s, x) {
      RecordWriteOk(s.ptt, PageNumber(x, s.ptt.pageBlocks));
      DramAborts(r.value.0, x, full);
    } else {
      NvmAborts(r.value.0, x, full);
    }
  }

  lemma DramAborts(m: State, x: nat, full: bool)
    requires |m.att.queues| == 4 && m.ckpt && x !in m.att.index
    requires Queue(m.att, Free) == [] && Queue(m.att, Clean) == []
    ensures DramStore(m, x, full) == Abort
  {
  }

  lemma NvmAborts(m: State, x: nat, full: bool)
    requires |m.att.queues| == 4 && x !in m.att.index && Queue(m.att, Free) == [] && Queue(m.att, Clean) == []
    requires !m.ckpt ==> Queue(m.att, Loan) == []
    ensures NvmStore(m, x, full) == Abort
  {
    assert EvictAny(m) == Abort || m.ckpt;
    assert EvictClean(m) == Abort;
  }

  /** A store completes exactly if there is room for it. */
  lemma StoreExact(s: State, x: nat, full: bool)
    requires Inv(s) && x < s.phyBlocks
    ensures StoreBlock(s, x, full).Ok? <==> HasRoom(s, x)
  {
    if HasRoom(s, x) {
      var t, to := StoreBlockOk(s, x, full);
      assert StoreBlock(s, x, full) == Ok((t, to)) by {
        assert Unlocked(0);
      }
    } else {
      StoreAborts(s, x, full);
    }
  }

  /** Asked by tag, Probe only lets stores through that have room. */
  lemma ProbeHasRoom(s: State, x: nat)
    requires TableOk(s.att) && Probe(s, x) == RegWrite
    ensures HasRoom(s, x)
  {
    QueueLengths(s.att);
  }

  /** Asked by address, it errs exactly if the address happens to be a live tag, the block has no
      entry, and none can be had. */
  lemma LiteralProbeExact(s: State, addr: nat)
    requires TableOk(s.att) && LiteralProbe(s, addr) == RegWrite
    ensures var x := addr / s.blockSize;
      HasRoom(s, x) <==>
        !(&& addr in s.att.index && x !in s.att.index && Queue(s.att, Free) == [] && Queue(s.att, Clean) == []
          && (s.ckpt || (!IsDram(s, x) && Queue(s.att, Loan) == [])))
  {
    QueueLengths(s.att);
  }

  lemma StoredAfter(s: State, m: State, t: State, x: nat, to: nat, full: bool)
    requires Follows(s, m, s.phyBlocks) && Stored(m, t, x, to, full) && x < s.phyBlocks
    ensures Stored(s, t, x, to, full)
  {
    assert forall g :: g >= s.phyBlocks ==> SameView(s, m, g);
    assert Follows(s, m, x);
    FollowsTrans(s, m, t, x);
    assert SameView(s, m, x);
  }

  // ----- the client's write -----

  function WriteBlock(s: State, a: nat, b: Block): State
    requires a < |s.mem|
  {
    s.(mem := s.mem[a := b])
  }

  /** Overwriting an open block changes that block only, and no retained copy. */
  lemma WriteBlockOk(s: State, x: nat, b: Block)
    requires Inv(s) && x < s.phyBlocks && Writable(s, x) && |b| == s.blockSize
    ensures Place(s, x).base < |s.mem|
    ensures var t := WriteBlock(s, Place(s, x).base, b);
      && Follows(s, t, x) && Place(t, x) == Place(s, x) && View(t, x) == b && NvmWrites(t) == NvmWrites(s)
  {
    PlaceInside(s, x);
    var t := WriteBlock(s, Place(s, x).base, b);
    InvSame(s, t);
    forall g: nat ensures Place(t, g) == Place(s, g) {}
    forall a ensures Kept(s, t, x, a) {}
    forall g: nat ensures g != x ==> SameView(s, t, g) {
      if g < s.phyBlocks && g != x {
        MovesView(s, t, x, g);
      }
    }
    WriteKeeps(s, t, x, Current);
    if s.ckpt {
      WriteKeeps(s, t, x, Previous);
    }
    if Quiet(s) {
      forall j ensures QuietAt(t, j) {
        assert QuietAt(s, j);
      }
    }
  }

  lemma WriteKeeps(s: State, t: State, x: nat, age: Age)
    requires Inv(s) && x < s.phyBlocks && Writable(s, x) && Moves(s, t, x)
    requires Place(s, x).base < |s.mem| && t.mem == s.mem[Place(s, x).base := t.mem[Place(s, x).base]]
    requires Place(t, x) == Place(s, x) && t.nvm == s.nvm && (age == Previous ==> s.ckpt)
    ensures Keeps(s, t, age)
  {
    LiveTag(s, x);
    if !IsDram(s, x) {
      var i := s.att.index[x];
      assert EntryOk(s, i);
      EntryRegion(s, i);
      PlaceInside(s, x);
    }
    KeepsStable(s, t, x, age);
  }
}
