/** The global invariant of the controller and the generic argument that one entry's move keeps it. */
module ControllerInvariants {
  import opened VersionBuffers
  import opened TranslationTables
  import opened PageTableInvariants
  import opened Controllers

  predicate UsesNvm(st: EntryState) {
    st == Clean || st == Dirty
  }

  predicate UsesDram(st: EntryState) {
    st == Loan || st == Temp || st == Stained
  }

  /** How a physical block is kept: the state of its entry (Free if none) and its machine block. */
  datatype Mapping = Mapping(state: EntryState, base: nat)

  function Place(s: State, g: nat): Mapping {
    if g in s.att.index && s.att.index[g] < |s.att.entries| then
      var e := s.att.entries[s.att.index[g]];
      Mapping(e.state, e.base)
    else Mapping(Free, g)
  }

  /** What a client sees at physical block `g`. */
  function View(s: State, g: nat): Block
    requires Place(s, g).base < |s.mem|
  {
    s.mem[Place(s, g).base]
  }

  // ----- the invariant -----

  ghost predicate Layout(s: State) {
    var n := |s.att.entries|;
    && s.nvm.base == s.phyBlocks && s.nvm.length == 2 * n
    && s.dram.base == s.phyBlocks + 2 * n && s.dram.length == n
    && |s.mem| == s.phyBlocks + 3 * n
    && forall a :: 0 <= a < |s.mem| ==> |s.mem[a]| == s.blockSize
  }

  ghost predicate BuffersOk(s: State) {
    && Partition(s.nvm) && Partition(s.dram)
    && s.dram.backup0 == {} && s.dram.backup1 == {}
    && |s.nvm.backup0| <= |s.att.entries|
    && (!s.ckpt ==> s.nvm.backup1 == {})
  }

  /** A live entry owns a slot of the right buffer (or its own home), and checkpointing leaves
      no entry Dirty or Hidden. */
  ghost predicate EntryOk(s: State, i: nat) {
    i < |s.att.entries| && s.att.entries[i].state != Free ==>
      var e := s.att.entries[i];
      && e.tag < s.phyBlocks
      && (UsesNvm(e.state) ==> At(s.nvm, e.base, s.nvm.inUse))
      && (UsesDram(e.state) ==> At(s.dram, e.base, s.dram.inUse))
      && (e.state == Hidden ==> e.base == e.tag)
      && (s.ckpt ==> e.state != Dirty && e.state != Hidden)
  }

  /** Loans belong to pages in DRAM, all other live entries to pages in NVM. */
  ghost predicate SideOk(s: State, i: nat) {
    i < |s.att.entries| && s.att.entries[i].state != Free ==>
      (s.att.entries[i].state == Loan <==> IsDram(s, s.att.entries[i].tag))
  }

  ghost predicate Exclusive(s: State) {
    forall i :: SideOk(s, i)
  }

  ghost predicate Separate(s: State, i: nat, j: nat) {
    i < |s.att.entries| && j < |s.att.entries| && i != j ==>
      var e, f := s.att.entries[i], s.att.entries[j];
      (UsesNvm(e.state) && UsesNvm(f.state)) || (UsesDram(e.state) && UsesDram(f.state)) ==>
        e.base != f.base
  }

  ghost predicate HoldsNvm(s: State, i: nat, x: nat) {
    i < |s.att.entries| && UsesNvm(s.att.entries[i].state) && s.att.entries[i].base == s.nvm.base + x
  }

  ghost predicate HoldsDram(s: State, i: nat, x: nat) {
    i < |s.att.entries| && UsesDram(s.att.entries[i].state) && s.att.entries[i].base == s.dram.base + x
  }

  /** No slot in use is without an entry. */
  ghost predicate SlotOwned(s: State, x: nat) {
    && (x in s.nvm.inUse ==> exists i :: HoldsNvm(s, i, x))
    && (x in s.dram.inUse ==> exists i :: HoldsDram(s, i, x))
  }

  ghost predicate Owned(s: State) {
    && (forall i :: EntryOk(s, i))
    && (forall i, j :: Separate(s, i, j))
    && (forall x :: SlotOwned(s, x))
  }

  ghost predicate Core(s: State) {
    TableOk(s.att) && Layout(s) && BuffersOk(s) && Owned(s) && Exclusive(s) && PttOk(s.ptt)
  }

  /** Slots of clean entries plus those backed up since the last begin (finish): the NVM budget. */
  ghost function Spent(s: State): nat {
    |EntriesIn(s.att.entries, 0)| + if s.ckpt then |s.nvm.backup1| else |s.nvm.backup0|
  }

  ghost predicate Inv(s: State) {
    Core(s) && Spent(s) <= |s.att.entries|
  }

  /** Only statistics of entries differ. */
  ghost predicate SameEntries(s: State, t: State) {
    && |t.att.entries| == |s.att.entries| && t.att.index == s.att.index
    && forall j :: 0 <= j < |s.att.entries| ==>
         && t.att.entries[j].state == s.att.entries[j].state && t.att.entries[j].tag == s.att.entries[j].tag
         && t.att.entries[j].base == s.att.entries[j].base
  }

  /** Ownership depends on entries and slots in use only. */
  lemma OwnedSame(s: State, t: State)
    requires Owned(s) && SameEntries(s, t) && t.phyBlocks == s.phyBlocks
    requires t.nvm.base == s.nvm.base && t.nvm.inUse == s.nvm.inUse && t.dram == s.dram
    requires t.ckpt && !s.ckpt ==>
      forall i :: 0 <= i < |s.att.entries| ==> s.att.entries[i].state != Dirty && s.att.entries[i].state != Hidden
    ensures Owned(t)
  {
    forall i ensures EntryOk(t, i) {
      assert EntryOk(s, i);
    }
    forall i, j ensures Separate(t, i, j) {
      assert Separate(s, i, j);
    }
    forall x ensures SlotOwned(t, x) {
      assert SlotOwned(s, x);
      if x in s.nvm.inUse {
        var i :| HoldsNvm(s, i, x);
        assert HoldsNvm(t, i, x);
      }
      if x in s.dram.inUse {
        var i :| HoldsDram(s, i, x);
        assert HoldsDram(t, i, x);
      }
    }
  }

  lemma ExclusiveSame(s: State, t: State)
    requires Exclusive(s) && SameEntries(s, t)
    requires t.ptt.pageBlocks == s.ptt.pageBlocks && t.ptt.pages.Keys == s.ptt.pages.Keys
    ensures Exclusive(t)
  {
    forall i ensures SideOk(t, i) {
      assert SideOk(s, i);
    }
  }

  // ----- one entry moves -----

  predicate NvmOwns(s: State, e: Entry, x: nat) {
    UsesNvm(e.state) && e.base == s.nvm.base + x
  }

  predicate DramOwns(s: State, e: Entry, x: nat) {
    UsesDram(e.state) && e.base == s.dram.base + x
  }

  /** Everything outside entry `i`, its slots and the memory contents is as before. */
  ghost predicate Frame(s: State, t: State, i: nat) {
    && i < |s.att.entries| == |t.att.entries|
    && t.att.entries == s.att.entries[i := t.att.entries[i]]
    && t == s.(att := t.att, nvm := t.nvm, dram := t.dram, mem := t.mem)
    && t.nvm.base == s.nvm.base && t.nvm.length == s.nvm.length
    && t.dram.base == s.dram.base && t.dram.length == s.dram.length
  }

  /** Slot `x` is in use exactly if it was and entry `i` did not give it up, or `i` took it. */
  ghost predicate HandoverAt(s: State, t: State, i: nat, x: nat)
    requires Frame(s, t, i)
  {
    var e, f := s.att.entries[i], t.att.entries[i];
    && (x in t.nvm.inUse <==> (x in s.nvm.inUse && !NvmOwns(s, e, x)) || NvmOwns(s, f, x))
    && (x in t.dram.inUse <==> (x in s.dram.inUse && !DramOwns(s, e, x)) || DramOwns(s, f, x))
    && (NvmOwns(s, f, x) && x in s.nvm.inUse ==> NvmOwns(s, e, x))
    && (DramOwns(s, f, x) && x in s.dram.inUse ==> DramOwns(s, e, x))
  }

  ghost predicate Handover(s: State, t: State, i: nat)
    requires Frame(s, t, i)
  {
    forall x :: HandoverAt(s, t, i, x)
  }

  lemma HandoverEntry(s: State, t: State, i: nat, j: nat)
    requires Owned(s) && Frame(s, t, i) && Handover(s, t, i) && i != j
    ensures EntryOk(t, j)
  {
    assert EntryOk(s, j) && Separate(s, i, j);
    if j < |s.att.entries| {
      var e := s.att.entries[j];
      if UsesNvm(e.state) {
        assert HandoverAt(s, t, i, e.base - s.nvm.base);
      } else if UsesDram(e.state) {
        assert HandoverAt(s, t, i, e.base - s.dram.base);
      }
    }
  }

  lemma HandoverSeparate(s: State, t: State, i: nat, j: nat)
    requires Owned(s) && Frame(s, t, i) && Handover(s, t, i)
    ensures Separate(t, i, j) && Separate(t, j, i)
  {
    assert EntryOk(s, j) && Separate(s, i, j);
    if j < |s.att.entries| {
      var e := s.att.entries[j];
      if UsesNvm(e.state) {
        assert HandoverAt(s, t, i, e.base - s.nvm.base);
      } else if UsesDram(e.state) {
        assert HandoverAt(s, t, i, e.base - s.dram.base);
      }
    }
  }

  lemma HandoverSlot(s: State, t: State, i: nat, x: nat)
    requires Owned(s) && Frame(s, t, i) && Handover(s, t, i)
    ensures SlotOwned(t, x)
  {
    assert SlotOwned(s, x) && HandoverAt(s, t, i, x);
    if x in t.nvm.inUse && !HoldsNvm(t, i, x) {
      var j :| HoldsNvm(s, j, x);
      assert HoldsNvm(t, j, x);
    }
    if x in t.dram.inUse && !HoldsDram(t, i, x) {
      var j :| HoldsDram(s, j, x);
      assert HoldsDram(t, j, x);
    }
  }

  lemma HandoverOwned(s: State, t: State, i: nat)
    requires Owned(s) && Frame(s, t, i) && Handover(s, t, i) && EntryOk(t, i)
    ensures Owned(t)
  {
    forall x ensures SlotOwned(t, x) {
      HandoverSlot(s, t, i, x);
    }
    forall j ensures EntryOk(t, j) {
      if j != i {
        HandoverEntry(s, t, i, j);
      }
    }
    forall j, k ensures Separate(t, j, k) {
      if j == i {
        HandoverSeparate(s, t, i, k);
      } else if k == i {
        HandoverSeparate(s, t, i, j);
      } else {
        assert Separate(s, j, k);
      }
    }
  }

  lemma EntryStep(s: State, t: State, i: nat)
    requires Core(s) && Frame(s, t, i) && Handover(s, t, i)
    requires TableOk(t.att) && EntryOk(t, i) && SideOk(t, i) && BuffersOk(t)
    requires |t.mem| == |s.mem| && forall a :: 0 <= a < |t.mem| ==> |t.mem[a]| == t.blockSize
    ensures Core(t)
  {
    HandoverOwned(s, t, i);
    forall j ensures SideOk(t, j) {
      assert SideOk(s, j);
    }
  }
}

/** Translation never aliases, allocation never fails, and what one block's move leaves alone. */
module Translation {
  import opened Counting
  import opened VersionBuffers
  import opened TranslationTables
  import opened Controllers
  import opened ControllerInvariants

  ghost predicate FreeCell(s: State, a: nat) {
    At(s.nvm, a, s.nvm.free) || At(s.dram, a, s.dram.free)
  }

  ghost predicate BackupCell(s: State, a: nat) {
    At(s.nvm, a, s.nvm.backup0) || At(s.nvm, a, s.nvm.backup1)
  }

  /** Which part of memory a live entry's block is in. */
  lemma EntryRegion(s: State, i: nat)
    requires Layout(s) && BuffersOk(s) && EntryOk(s, i)
    requires i < |s.att.entries| && s.att.entries[i].state != Free
    ensures var e := s.att.entries[i];
      && (UsesNvm(e.state) ==> s.phyBlocks <= e.base < s.dram.base)
      && (UsesDram(e.state) ==> s.dram.base <= e.base < |s.mem|)
      && (e.state == Hidden ==> e.base == e.tag < s.phyBlocks)
  {
    var e := s.att.entries[i];
    if UsesNvm(e.state) {
      InUseCell(s.nvm, e.base);
    } else if UsesDram(e.state) {
      InUseCell(s.dram, e.base);
    }
  }

  /** A mapped block lies in memory, outside free and backed-up slots. */
  lemma PlaceInside(s: State, g: nat)
    requires Core(s) && g < s.phyBlocks
    ensures Place(s, g).base < |s.mem| && !FreeCell(s, Place(s, g).base) && !BackupCell(s, Place(s, g).base)
    ensures Place(s, g).base == g || Place(s, g).base >= s.phyBlocks
  {
    var a := Place(s, g).base;
    assert TagOk(s.att, g);
    if g in s.att.index {
      var i := s.att.index[g];
      assert EntryOk(s, i);
      EntryRegion(s, i);
      if UsesNvm(s.att.entries[i].state) {
        InUseCell(s.nvm, a);
        OutsideCell(s.dram, a);
      } else if UsesDram(s.att.entries[i].state) {
        InUseCell(s.dram, a);
        OutsideCell(s.nvm, a);
      }
    }
    if a < s.phyBlocks {
      OutsideCell(s.nvm, a);
      OutsideCell(s.dram, a);
    }
  }

  /** Translation is injective over the physical blocks, and no block sits in another's home. */
  lemma NoAlias(s: State, g: nat, h: nat)
    requires Core(s) && g < s.phyBlocks && h < s.phyBlocks && g != h
    ensures Place(s, g).base != Place(s, h).base
    ensures Place(s, g).base != h
  {
    PlaceInside(s, g);
    PlaceInside(s, h);
    assert TagOk(s.att, g) && TagOk(s.att, h);
    if g in s.att.index && h in s.att.index {
      var i, j := s.att.index[g], s.att.index[h];
      assert EntryOk(s, i) && EntryOk(s, j) && Separate(s, i, j);
      EntryRegion(s, i);
      EntryRegion(s, j);
    }
  }

  /** A live entry is where its tag is looked up. */
  lemma EntryPlace(s: State, i: nat)
    requires TableOk(s.att) && i < |s.att.entries| && s.att.entries[i].state != Free
    ensures Place(s, s.att.entries[i].tag) == Mapping(s.att.entries[i].state, s.att.entries[i].base)
  {
    assert Indexed(s.att, i);
  }

  // ----- allocation -----

  ghost function NvmOwner(s: State, x: nat): (i: nat)
    requires Owned(s) && x in s.nvm.inUse
    ensures HoldsNvm(s, i, x)
  {
    assert SlotOwned(s, x);
    var i :| HoldsNvm(s, i, x);
    i
  }

  ghost function DramOwner(s: State, x: nat): (i: nat)
    requires Owned(s) && x in s.dram.inUse
    ensures HoldsDram(s, i, x)
  {
    assert SlotOwned(s, x);
    var i :| HoldsDram(s, i, x);
    i
  }

  lemma NvmInUse(s: State, i: nat)
    requires Owned(s) && i < |s.att.entries| && !UsesNvm(s.att.entries[i].state)
    ensures |s.nvm.inUse| < |s.att.entries|
  {
    var n := |s.att.entries|;
    var f := map x | x in s.nvm.inUse :: NvmOwner(s, x);
    assert f.Keys == s.nvm.inUse;
    InjectiveIsOnto(f, Range(n) - {i});
    RangeCardinality(n);
  }

  lemma DramInUse(s: State, i: nat)
    requires Owned(s) && i < |s.att.entries| && !UsesDram(s.att.entries[i].state)
    ensures |s.dram.inUse| < |s.att.entries|
  {
    var n := |s.att.entries|;
    var f := map x | x in s.dram.inUse :: DramOwner(s, x);
    assert f.Keys == s.dram.inUse;
    InjectiveIsOnto(f, Range(n) - {i});
    RangeCardinality(n);
  }

  /** Twice the table length in NVM slots is enough whenever some entry holds none. */
  lemma NvmSuffices(s: State, i: nat)
    requires Core(s) && !s.ckpt && i < |s.att.entries| && !UsesNvm(s.att.entries[i].state)
    ensures Alloc(s.nvm).Ok?
  {
    NvmInUse(s, i);
    AllocStep(s.nvm);
  }

  /** One DRAM slot per entry is enough. */
  lemma DramSuffices(s: State, i: nat)
    requires Core(s) && i < |s.att.entries| && !UsesDram(s.att.entries[i].state)
    ensures Alloc(s.dram).Ok?
  {
    DramInUse(s, i);
    AllocStep(s.dram);
  }

  // ----- confined moves -----

  ghost predicate Kept(s: State, t: State, x: nat, a: nat)
    requires |t.mem| == |s.mem|
  {
    a < |s.mem| && a != x && a != Place(s, x).base && !FreeCell(s, a) ==> t.mem[a] == s.mem[a]
  }

  /** `t` differs from `s` only in how block `x` is kept, in free slots, and by more backups. */
  ghost predicate Moves(s: State, t: State, x: nat) {
    && t == s.(att := t.att, nvm := t.nvm, dram := t.dram, mem := t.mem)
    && |t.mem| == |s.mem| && |t.att.entries| == |s.att.entries| && t.nvm.base == s.nvm.base
    && (forall g :: g != x ==> Place(t, g) == Place(s, g))
    && (forall a :: Kept(s, t, x, a))
    && s.nvm.backup0 <= t.nvm.backup0 && s.nvm.backup1 <= t.nvm.backup1
  }

  /** A move of `x` changes no other block's value. */
  lemma MovesView(s: State, t: State, x: nat, g: nat)
    requires Core(s) && Moves(s, t, x) && x < s.phyBlocks && g < s.phyBlocks && g != x
    ensures Place(s, g).base < |s.mem| && Place(t, g) == Place(s, g) && View(t, g) == View(s, g)
  {
    PlaceInside(s, g);
    NoAlias(s, g, x);
    assert Kept(s, t, x, Place(s, g).base);
  }

  /** Changing entry `i` and the index at its tag touches no other tag. */
  lemma PlaceFrame(s: State, t: State, i: nat, x: nat, g: nat)
    requires TableOk(s.att) && i < |s.att.entries| && g != x
    requires |t.att.entries| == |s.att.entries| && t.att.entries == s.att.entries[i := t.att.entries[i]]
    requires s.att.entries[i].state != Free ==> s.att.entries[i].tag == x
    requires t.att.index == s.att.index || t.att.index == s.att.index - {x} || t.att.index == s.att.index[x := i]
    ensures Place(t, g) == Place(s, g)
  {
    assert TagOk(s.att, g);
  }
}
