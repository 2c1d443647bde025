/** One entry's transition: what every transition of the controller has in common. */
module Transitions {
  import opened VersionBuffers
  import opened TranslationTables
  import opened Controllers
  import opened ControllerInvariants
  import opened Translation

  /** How the block's data followed: not at all, by a copy, or by exchanging it with its home. */
  datatype Transfer = Skipped | Copied | Swapped

  ghost predicate Transferred(s: State, t: State, x: nat, how: Transfer) {
    var from, to := Place(s, x).base, Place(t, x).base;
    && from < |s.mem| && to < |s.mem| && x < |s.mem|
    && match how
       case Skipped => t.mem == s.mem
       case Copied => t.mem == s.mem[to := s.mem[from]]
       case Swapped => to == x && t.mem == s.mem[x := s.mem[from]][from := s.mem[x]]
  }

  /** Buffer `c` is `b` after an entry gave up slot `from` (if it had one) and took `to` (if it has one). */
  ghost predicate SlotStep(b: Buffer, c: Buffer, had: bool, from: nat, has: bool, to: nat) {
    && c.base == b.base && c.length == b.length && Partition(c)
    && b.backup0 <= c.backup0 && b.backup1 <= c.backup1
    && (had && has ==> c == b && from == to)
    && (had && !has ==> c.inUse == b.inUse - {from - b.base})
    && (!had && has ==> At(b, to, b.free) && c.inUse == b.inUse + {to - b.base})
    && (!had && !has ==> c == b)
  }

  ghost predicate TableStep(s: State, t: State, i: nat, x: nat) {
    && i < |s.att.entries| == |t.att.entries| && TableOk(t.att)
    && t.att.entries == s.att.entries[i := t.att.entries[i]]
    && var e, f := s.att.entries[i], t.att.entries[i];
    && (e.state == Free ==> f.state != Free && x !in s.att.index && t.att.index == s.att.index[x := i])
    && (e.state != Free ==> e.tag == x)
    && (e.state != Free ==> t.att.index == if f.state == Free then s.att.index - {x} else s.att.index)
    && (f.state != Free ==> f.tag == x)
  }

  /** The new entry is legal for its block and phase. */
  ghost predicate Legal(s: State, f: Entry, x: nat) {
    f.state != Free ==>
      && (f.state == Hidden ==> f.base == x)
      && (f.state == Loan <==> IsDram(s, x))
      && (s.ckpt ==> f.state != Dirty && f.state != Hidden)
  }

  ghost predicate Transition(s: State, t: State, i: nat, x: nat, how: Transfer) {
    && x < s.phyBlocks
    && t == s.(att := t.att, nvm := t.nvm, dram := t.dram, mem := t.mem)
    && TableStep(s, t, i, x)
    && var e, f := s.att.entries[i], t.att.entries[i];
    && Legal(s, f, x)
    && SlotStep(s.nvm, t.nvm, UsesNvm(e.state), e.base, UsesNvm(f.state), f.base)
    && SlotStep(s.dram, t.dram, UsesDram(e.state), e.base, UsesDram(f.state), f.base)
    && BuffersOk(t)
    && Transferred(s, t, x, how)
  }

  lemma StepHandover(s: State, t: State, i: nat, x: nat)
    requires Owned(s) && BuffersOk(s) && Frame(s, t, i)
    requires var e, f := s.att.entries[i], t.att.entries[i];
      && SlotStep(s.nvm, t.nvm, UsesNvm(e.state), e.base, UsesNvm(f.state), f.base)
      && SlotStep(s.dram, t.dram, UsesDram(e.state), e.base, UsesDram(f.state), f.base)
    ensures HandoverAt(s, t, i, x)
  {
    assert EntryOk(s, i);
    assert InOneSet(s.nvm, x) && InOneSet(s.dram, x);
  }

  lemma TransitionEntry(s: State, t: State, i: nat, x: nat, how: Transfer)
    requires Core(s) && Transition(s, t, i, x, how)
    ensures EntryOk(t, i) && SideOk(t, i)
    ensures Place(s, x) == if s.att.entries[i].state == Free then Mapping(Free, x)
                           else Mapping(s.att.entries[i].state, s.att.entries[i].base)
    ensures Place(t, x) == if t.att.entries[i].state == Free then Mapping(Free, x)
                           else Mapping(t.att.entries[i].state, t.att.entries[i].base)
  {
    assert EntryOk(s, i) && Indexed(s.att, i) && Indexed(t.att, i);
  }

  lemma TransitionMemory(s: State, t: State, i: nat, x: nat, how: Transfer)
    requires Core(s) && Transition(s, t, i, x, how)
    ensures |t.mem| == |s.mem| && (forall a :: 0 <= a < |t.mem| ==> |t.mem[a]| == t.blockSize)
    ensures forall a :: Kept(s, t, x, a)
  {
    TransitionEntry(s, t, i, x, how);
    assert EntryOk(s, i);
    var to := Place(t, x).base;
    assert to == x || to == Place(s, x).base || FreeCell(s, to);
  }

  /** Every transition keeps the core invariant and moves only block `x`; if its data followed, its value too. */
  lemma TransitionOk(s: State, t: State, i: nat, x: nat, how: Transfer)
    requires Core(s) && Transition(s, t, i, x, how)
    ensures Core(t) && Moves(s, t, x)
    ensures how != Skipped || Place(t, x).base == Place(s, x).base ==> View(t, x) == View(s, x)
  {
    TransitionEntry(s, t, i, x, how);
    TransitionMemory(s, t, i, x, how);
    forall y ensures HandoverAt(s, t, i, y) {
      StepHandover(s, t, i, y);
    }
    EntryStep(s, t, i);
    forall g | g != x ensures Place(t, g) == Place(s, g) {
      PlaceFrame(s, t, i, x, g);
    }
  }
}

/** Each entry transition of the controller cannot fail, keeps the invariant and moves one block. */
module EntryMoves {
  import opened Outcomes
  import opened VersionBuffers
  import opened TranslationTables
  import opened Controllers
  import opened ControllerInvariants
  import opened Translation
  import opened Transitions

  ghost predicate Live(s: State, i: nat, st: EntryState) {
    i < |s.att.entries| && s.att.entries[i].state == st
  }

  /** Block `x` went to machine block `to` in state `st`; if `followed`, its value is unchanged. */
  ghost predicate Moved(s: State, t: State, x: nat, st: EntryState, to: nat, followed: bool) {
    && Core(t) && Moves(s, t, x) && Place(t, x) == Mapping(st, to)
    && x < s.phyBlocks && Place(s, x).base < |s.mem| && to < |t.mem|
    && (followed ==> View(t, x) == View(s, x))
  }

  ghost function Bit(b: bool): nat {
    if b then 1 else 0
  }

  lemma CleanCount(es: seq<Entry>, i: nat, f: Entry)
    requires i < |es|
    ensures |EntriesIn(es[i := f], 0)| == |EntriesIn(es, 0)| - Bit(es[i].state == Clean) + Bit(f.state == Clean)
  {
    EntriesInUpdate(es, i, f, 0);
    assert i in EntriesIn(es, 0) <==> es[i].state == Clean;
  }

  lemma BackupCount(b: set<nat>, x: nat)
    requires x !in b
    ensures |b + {x}| == |b| + 1
  {
  }

  /** The table operation that takes entry `i` to state `st` at `to`. */
  ghost predicate Retabled(s: State, t: State, i: nat, st: EntryState, to: nat) {
    if st == Free then ShiftState(s.att, i, Free) == Ok(t.att) else Reset(s.att, i, to, st) == Ok(t.att)
  }

  lemma RetabledStep(s: State, t: State, i: nat, st: EntryState, to: nat)
    requires TableOk(s.att) && i < |s.att.entries| && s.att.entries[i].state != Free
    requires Retabled(s, t, i, st, to) && (st == Free ==> to == s.att.entries[i].tag)
    ensures TableStep(s, t, i, s.att.entries[i].tag)
    ensures t.att.entries[i].state == st && (st != Free ==> t.att.entries[i].base == to)
    ensures Place(t, s.att.entries[i].tag) == Mapping(st, to)
  {
    if st == Free {
      ShiftStateOk(s.att, i, Free);
    } else {
      ResetOk(s.att, i, to, st);
      EntryPlace(t, i);
    }
  }

  /** Entry `i` goes to state `st` at `to`. */
  lemma EntryMove(s: State, t: State, i: nat, st: EntryState, to: nat, how: Transfer)
    requires Core(s) && i < |s.att.entries| && s.att.entries[i].state != Free
    requires t == s.(att := t.att, nvm := t.nvm, dram := t.dram, mem := t.mem)
    requires Retabled(s, t, i, st, to) && (st == Free ==> to == s.att.entries[i].tag)
    requires var e := s.att.entries[i];
      && SlotStep(s.nvm, t.nvm, UsesNvm(e.state), e.base, UsesNvm(st), to)
      && SlotStep(s.dram, t.dram, UsesDram(e.state), e.base, UsesDram(st), to)
      && Legal(s, e.(state := st, base := to), e.tag)
      && to < |s.mem| && e.base < |s.mem| && e.tag < |s.mem|
      && (how == Skipped ==> t.mem == s.mem)
      && (how == Copied ==> t.mem == s.mem[to := s.mem[e.base]])
      && (how == Swapped ==> to == e.tag && t.mem == s.mem[to := s.mem[e.base]][e.base := s.mem[to]])
    requires |t.att.entries| == |s.att.entries| ==> BuffersOk(t)
    ensures Moved(s, t, s.att.entries[i].tag, st, to, how != Skipped || to == s.att.entries[i].base)
  {
    assert EntryOk(s, i);
    EntryPlace(s, i);
    RetabledStep(s, t, i, st, to);
    TransitionOk(s, t, i, s.att.entries[i].tag, how);
  }

  /** A slot in use becomes a backup. */
  lemma BackupSlot(b: Buffer, c: Buffer, a: nat, st: SlotState, to: nat)
    requires Partition(b) && At(b, a, b.inUse) && (st == Backup0 || st == Backup1) && Backup(b, a, st) == Ok(c)
    ensures SlotStep(b, c, true, a, false, to) && At(c, a, Slots(c, st)) && |Slots(c, st)| == |Slots(b, st)| + 1
    ensures st == Backup0 ==> c.backup1 == b.backup1
    ensures st == Backup1 ==> c.backup0 == b.backup0
  {
    BackupStep(b, a, st);
    InUseCell(b, a);
    BackupCount(Slots(b, st), a - b.base);
  }

  /** Backing up a clean entry's slot spends nothing: the entry leaves as the backup arrives. */
  lemma RetireClean(s: State, t: State, i: nat, to: nat)
    requires Inv(s) && Live(s, i, Clean)
    requires Backup(s.nvm, s.att.entries[i].base, if s.ckpt then Backup1 else Backup0) == Ok(t.nvm)
    requires t.ckpt == s.ckpt && |t.att.entries| == |s.att.entries|
    requires t.att.entries == s.att.entries[i := t.att.entries[i]] && t.att.entries[i].state != Clean
    ensures SlotStep(s.nvm, t.nvm, true, s.att.entries[i].base, false, to)
    ensures |t.nvm.backup0| <= |t.att.entries| && (!t.ckpt ==> t.nvm.backup1 == {})
    ensures Spent(t) == Spent(s)
    ensures At(t.nvm, s.att.entries[i].base, if s.ckpt then t.nvm.backup1 else t.nvm.backup0)
  {
    assert EntryOk(s, i);
    BackupSlot(s.nvm, t.nvm, s.att.entries[i].base, if s.ckpt then Backup1 else Backup0, to);
    CleanCount(s.att.entries, i, t.att.entries[i]);
  }

  lemma HideCleanStep(s: State, i: nat, move: bool)
    requires Inv(s) && !s.ckpt && Live(s, i, Clean)
    ensures HideClean(s, i, move).Ok?
    ensures var e, t := s.att.entries[i], HideClean(s, i, move).value;
      && Inv(t) && Moved(s, t, e.tag, Hidden, e.tag, move)
      && At(t.nvm, e.base, t.nvm.backup0) && t.mem[e.base] == s.mem[e.base]
      && t.att.entries == s.att.entries[i := e.(state := Hidden, base := e.tag)]
  {
    var e := s.att.entries[i];
    assert EntryOk(s, i) && SideOk(s, i);
    EntryRegion(s, i);
    BackupStep(s.nvm, e.base, Backup0);
    ResetOk(s.att, i, e.tag, Hidden);
    var t := HideClean(s, i, move).value;
    RetireClean(s, t, i, e.tag);
    EntryMove(s, t, i, Hidden, e.tag, if move then Copied else Skipped);
  }

  lemma ResetCleanStep(s: State, i: nat, move: bool)
    requires Inv(s) && s.ckpt && Live(s, i, Clean)
    ensures ResetClean(s, i, move).Ok?
    ensures var e, (t, to) := s.att.entries[i], ResetClean(s, i, move).value;
      && Inv(t) && Moved(s, t, e.tag, Temp, to, move)
      && At(t.nvm, e.base, t.nvm.backup1) && t.mem[e.base] == s.mem[e.base] && t.mem[e.tag] == s.mem[e.tag]
      && t.att.entries == s.att.entries[i := e.(state := Temp, base := to)]
  {
    var e := s.att.entries[i];
    assert EntryOk(s, i) && SideOk(s, i);
    EntryRegion(s, i);
    DramSuffices(s, i);
    DramTake(s);
    BackupStep(s.nvm, e.base, Backup1);
    var to := Alloc(s.dram).value.1;
    ResetOk(s.att, i, to, Temp);
    var t := ResetClean(s, i, move).value.0;
    RetireClean(s, t, i, to);
    EntryMove(s, t, i, Temp, to, if move then Copied else Skipped);
  }

  lemma FreeCleanStep(s: State, i: nat)
    requires Inv(s) && Live(s, i, Clean)
    ensures FreeClean(s, i).Ok?
    ensures var e, t := s.att.entries[i], FreeClean(s, i).value;
      && Inv(t) && Moved(s, t, e.tag, Free, e.tag, true)
      && At(t.nvm, e.base, if s.ckpt then t.nvm.backup1 else t.nvm.backup0)
      && (s.ckpt ==> t.mem[e.base] == s.mem[e.tag])
      && t.att.entries == s.att.entries[i := e.(state := Free)]
  {
    var e := s.att.entries[i];
    assert EntryOk(s, i) && SideOk(s, i);
    EntryRegion(s, i);
    BackupStep(s.nvm, e.base, if s.ckpt then Backup1 else Backup0);
    ShiftStateOk(s.att, i, Free);
    var t := FreeClean(s, i).value;
    RetireClean(s, t, i, e.tag);
    EntryMove(s, t, i, Free, e.tag, if s.ckpt then Swapped else Copied);
  }

  /** Clean entries and backups are untouched, so the budget is. */
  lemma SpentSame(s: State, t: State, i: nat)
    requires i < |s.att.entries| == |t.att.entries| && t.ckpt == s.ckpt
    requires t.att.entries == s.att.entries[i := t.att.entries[i]]
    requires s.att.entries[i].state == Clean <==> t.att.entries[i].state == Clean
    requires t.nvm.backup0 == s.nvm.backup0 && t.nvm.backup1 == s.nvm.backup1
    ensures Spent(t) == Spent(s)
  {
    CleanCount(s.att.entries, i, t.att.entries[i]);
  }

  /** A free slot is taken into use. */
  lemma TakeSlot(b: Buffer) returns (c: Buffer, a: nat)
    requires Partition(b) && Alloc(b).Ok?
    ensures Alloc(b) == Ok((c, a)) && At(b, a, b.free) && a < b.base + b.length
    ensures c.backup0 == b.backup0 && c.backup1 == b.backup1
    ensures forall from :: SlotStep(b, c, false, from, true, a)
  {
    AllocStep(b);
    c, a := Alloc(b).value.0, Alloc(b).value.1;
    assert InOneSet(b, a - b.base);
  }

  lemma DramTake(s: State)
    requires Core(s) && Alloc(s.dram).Ok?
    ensures var (dram, a) := Alloc(s.dram).value;
      && At(s.dram, a, s.dram.free) && s.dram.base <= a < |s.mem|
      && dram.backup0 == {} && dram.backup1 == {}
      && forall from :: SlotStep(s.dram, dram, false, from, true, a)
  {
    var c, a := TakeSlot(s.dram);
  }

  lemma NvmTake(s: State)
    requires Core(s) && Alloc(s.nvm).Ok?
    ensures var (nvm, a) := Alloc(s.nvm).value;
      && At(s.nvm, a, s.nvm.free) && s.phyBlocks <= a < s.dram.base
      && nvm.backup0 == s.nvm.backup0 && nvm.backup1 == s.nvm.backup1
      && forall from :: SlotStep(s.nvm, nvm, false, from, true, a)
  {
    var c, a := TakeSlot(s.nvm);
  }

  lemma DramGive(s: State, i: nat)
    requires Core(s) && i < |s.att.entries| && UsesDram(s.att.entries[i].state)
    ensures var e := s.att.entries[i];
      && Release(s.dram, e.base, InUse).Ok?
      && var dram := Release(s.dram, e.base, InUse).value;
      && dram.backup0 == {} && dram.backup1 == {}
      && forall to :: SlotStep(s.dram, dram, true, e.base, false, to)
  {
    assert EntryOk(s, i);
    ReleaseStep(s.dram, s.att.entries[i].base);
  }

  lemma DirtyStainedStep(s: State, i: nat, move: bool)
    requires Core(s) && !s.ckpt && Live(s, i, Stained)
    ensures DirtyStained(s, i, move).Ok?
    ensures var e, (t, to) := s.att.entries[i], DirtyStained(s, i, move).value;
      && Moved(s, t, e.tag, Dirty, to, move) && Spent(t) == Spent(s)
      && t.nvm.backup0 == s.nvm.backup0 && t.mem[e.tag] == s.mem[e.tag]
      && t.att.entries == s.att.entries[i := e.(state := Dirty, base := to)]
  {
    var e := s.att.entries[i];
    assert EntryOk(s, i) && SideOk(s, i);
    EntryRegion(s, i);
    NvmSuffices(s, i);
    NvmTake(s);
    DramGive(s, i);
    var to := Alloc(s.nvm).value.1;
    ResetOk(s.att, i, to, Dirty);
    var t := DirtyStained(s, i, move).value.0;
    SpentSame(s, t, i);
    EntryMove(s, t, i, Dirty, to, if move then Copied else Skipped);
  }

  lemma FreeLoanStep(s: State, i: nat, move: bool)
    requires Core(s) && !s.ckpt && Live(s, i, Loan)
    ensures FreeLoan(s, i, move).Ok?
    ensures var e, t := s.att.entries[i], FreeLoan(s, i, move).value;
      && Moved(s, t, e.tag, Free, e.tag, move) && Spent(t) == Spent(s)
      && t.nvm == s.nvm && t.att.entries == s.att.entries[i := e.(state := Free)]
  {
    var e := s.att.entries[i];
    assert EntryOk(s, i) && SideOk(s, i);
    EntryRegion(s, i);
    DramGive(s, i);
    ShiftStateOk(s.att, i, Free);
    var t := FreeLoan(s, i, move).value;
    SpentSame(s, t, i);
    EntryMove(s, t, i, Free, e.tag, if move then Copied else Skipped);
  }

  lemma HideTempStep(s: State, i: nat, move: bool)
    requires Core(s) && !s.ckpt && Live(s, i, Temp)
    ensures HideTemp(s, i, move).Ok?
    ensures var e, t := s.att.entries[i], HideTemp(s, i, move).value;
      && Moved(s, t, e.tag, Hidden, e.tag, move) && Spent(t) == Spent(s)
      && t.nvm == s.nvm && t.att.entries == s.att.entries[i := e.(state := Hidden, base := e.tag)]
  {
    var e := s.att.entries[i];
    assert EntryOk(s, i) && SideOk(s, i);
    EntryRegion(s, i);
    DramGive(s, i);
    ResetOk(s.att, i, e.tag, Hidden);
    var t := HideTemp(s, i, move).value;
    SpentSame(s, t, i);
    EntryMove(s, t, i, Hidden, e.tag, if move then Copied else Skipped);
  }

  // ----- new entries -----

  lemma SetupTable(s: State, t: State, x: nat, to: nat, st: EntryState)
    requires TableOk(s.att) && x !in s.att.index && st != Free
    requires TranslationTables.Setup(s.att, x, to, st).Ok?
    requires t.att == TranslationTables.Setup(s.att, x, to, st).value.0
    ensures var i := TranslationTables.Setup(s.att, x, to, st).value.1;
      && TableStep(s, t, i, x) && Live(s, i, Free)
      && t.att.entries[i] == s.att.entries[i].(state := st, tag := x, base := to)
    ensures Place(t, x) == Mapping(st, to)
  {
    TranslationTables.SetupOk(s.att, x, to, st);
    var i := TranslationTables.Setup(s.att, x, to, st).value.1;
    EntryPlace(t, i);
  }

  /** A free entry takes block `x` to slot `to`. */
  lemma SetupMove(s: State, t: State, x: nat, to: nat, st: EntryState, how: Transfer)
    requires Core(s) && x < s.phyBlocks && x !in s.att.index && st != Free && st != Hidden
    requires t == s.(att := t.att, nvm := t.nvm, dram := t.dram, mem := t.mem)
    requires TranslationTables.Setup(s.att, x, to, st).Ok?
    requires t.att == TranslationTables.Setup(s.att, x, to, st).value.0
    requires SlotStep(s.nvm, t.nvm, false, 0, UsesNvm(st), to) && SlotStep(s.dram, t.dram, false, 0, UsesDram(st), to)
    requires (st == Loan <==> IsDram(s, x)) && (s.ckpt ==> st != Dirty)
    requires to < |s.mem| && x < |s.mem| && how != Swapped
    requires t.mem == if how == Copied then s.mem[to := s.mem[x]] else s.mem
    requires |t.att.entries| == |s.att.entries| ==> BuffersOk(t)
    ensures Moved(s, t, x, st, to, how == Copied)
  {
    SetupTable(s, t, x, to, st);
    TransitionOk(s, t, TranslationTables.Setup(s.att, x, to, st).value.1, x, how);
  }

  lemma FrontEntry(s: State, st: EntryState)
    requires TableOk(s.att) && (st == Clean || st == Loan || st == Free) && Queue(s.att, st) != []
    ensures Live(s, Queue(s.att, st)[0], st)
  {
    var q := StateIndex(st);
    assert Lists.Listing(s.att.queues[q], EntriesIn(s.att.entries, q));
    assert Queue(s.att, st)[0] in EntriesIn(s.att.entries, q);
  }

  lemma NewDirtyStep(s: State, x: nat, move: bool)
    requires Core(s) && !s.ckpt && x < s.phyBlocks && x !in s.att.index && !IsDram(s, x)
    requires Queue(s.att, Free) != []
    ensures Alloc(s.nvm).Ok?
    ensures var (nvm, to) := Alloc(s.nvm).value;
      && Controllers.Setup(s.(nvm := nvm), x, to, Dirty, move).Ok?
      && var (t, i) := Controllers.Setup(s.(nvm := nvm), x, to, Dirty, move).value;
      && Moved(s, t, x, Dirty, to, move) && Spent(t) == Spent(s) && Live(s, i, Free)
      && t.mem[x] == s.mem[x]
      && t.att.entries == s.att.entries[i := s.att.entries[i].(state := Dirty, tag := x, base := to)]
  {
    FrontEntry(s, Free);
    NvmSuffices(s, Queue(s.att, Free)[0]);
    NvmTake(s);
    var (nvm, to) := Alloc(s.nvm).value;
    TranslationTables.SetupOk(s.att, x, to, Dirty);
    var (t, i) := Controllers.Setup(s.(nvm := nvm), x, to, Dirty, move).value;
    SpentSame(s, t, i);
    SetupMove(s, t, x, to, Dirty, if move then Copied else Skipped);
  }

  lemma NewBufferedStep(s: State, x: nat, st: EntryState, move: bool)
    requires Core(s) && x < s.phyBlocks && x !in s.att.index
    requires (st == Loan && IsDram(s, x)) || (st == Stained && !IsDram(s, x))
    requires Queue(s.att, Free) != []
    ensures Alloc(s.dram).Ok?
    ensures var (dram, to) := Alloc(s.dram).value;
      && Controllers.Setup(s.(dram := dram), x, to, st, move).Ok?
      && var (t, i) := Controllers.Setup(s.(dram := dram), x, to, st, move).value;
      && Moved(s, t, x, st, to, move) && Spent(t) == Spent(s) && Live(s, i, Free)
      && t.mem[x] == s.mem[x]
      && t.att.entries == s.att.entries[i := s.att.entries[i].(state := st, tag := x, base := to)]
  {
    FrontEntry(s, Free);
    DramSuffices(s, Queue(s.att, Free)[0]);
    DramTake(s);
    var (dram, to) := Alloc(s.dram).value;
    TranslationTables.SetupOk(s.att, x, to, st);
    var (t, i) := Controllers.Setup(s.(dram := dram), x, to, st, move).value;
    SpentSame(s, t, i);
    SetupMove(s, t, x, to, st, if move then Copied else Skipped);
  }

  // ----- the rest of a checkpoint's cleaning and of a migration -----

  lemma ResetToSameBase(t: Table, i: nat, st: EntryState)
    requires i < |t.entries|
    ensures Reset(t, i, t.entries[i].base, st) == ShiftState(t, i, st)
  {
    assert t.entries[i := t.entries[i].(base := t.entries[i].base)] == t.entries;
  }

  lemma ShiftToClean(s: State, i: nat)
    requires Core(s) && !s.ckpt && Live(s, i, Dirty)
    ensures ShiftState(s.att, i, Clean).Ok?
    ensures var e, t := s.att.entries[i], s.(att := ShiftState(s.att, i, Clean).value);
      Moved(s, t, e.tag, Clean, e.base, true) && t.att.entries == s.att.entries[i := e.(state := Clean)]
  {
    var e := s.att.entries[i];
    assert EntryOk(s, i) && SideOk(s, i);
    EntryRegion(s, i);
    ShiftStateOk(s.att, i, Clean);
    ResetToSameBase(s.att, i, Clean);
    var t := s.(att := ShiftState(s.att, i, Clean).value);
    EntryMove(s, t, i, Clean, e.base, Skipped);
  }

  lemma ShiftToFree(s: State, i: nat)
    requires Core(s) && !s.ckpt && Live(s, i, Hidden)
    ensures ShiftState(s.att, i, Free).Ok?
    ensures var e, t := s.att.entries[i], s.(att := ShiftState(s.att, i, Free).value);
      && Moved(s, t, e.tag, Free, e.tag, true) && Spent(t) == Spent(s)
      && t.att.entries == s.att.entries[i := e.(state := Free)]
  {
    var e := s.att.entries[i];
    assert EntryOk(s, i) && SideOk(s, i);
    EntryRegion(s, i);
    ShiftStateOk(s.att, i, Free);
    var t := s.(att := ShiftState(s.att, i, Free).value);
    SpentSame(s, t, i);
    EntryMove(s, t, i, Free, e.tag, Skipped);
  }

  lemma NvmGive(s: State, i: nat)
    requires Core(s) && i < |s.att.entries| && UsesNvm(s.att.entries[i].state)
    ensures var e := s.att.entries[i];
      && Release(s.nvm, e.base, InUse).Ok?
      && var nvm := Release(s.nvm, e.base, InUse).value;
      && nvm.backup0 == s.nvm.backup0 && nvm.backup1 == s.nvm.backup1
      && forall to :: SlotStep(s.nvm, nvm, true, e.base, false, to)
  {
    assert EntryOk(s, i);
    ReleaseStep(s.nvm, s.att.entries[i].base);
  }

  /** Copy home and discard, from an NVM slot. */
  lemma HomeFromNvm(s: State, i: nat)
    requires Inv(s) && !s.ckpt && i < |s.att.entries| && UsesNvm(s.att.entries[i].state)
    ensures var e := s.att.entries[i];
      && Copy(s, e.tag, e.base).Ok? && DiscardNvm(Copy(s, e.tag, e.base).value, i).Ok?
      && var t := DiscardNvm(Copy(s, e.tag, e.base).value, i).value;
      && Inv(t) && Moved(s, t, e.tag, Free, e.tag, true) && t.att.entries == s.att.entries[i := e.(state := Free)]
  {
    var e := s.att.entries[i];
    assert EntryOk(s, i) && SideOk(s, i);
    EntryRegion(s, i);
    NvmGive(s, i);
    ShiftStateOk(s.att, i, Free);
    var t := DiscardNvm(Copy(s, e.tag, e.base).value, i).value;
    CleanCount(s.att.entries, i, t.att.entries[i]);
    EntryMove(s, t, i, Free, e.tag, Copied);
  }

  /** Copy home and discard, from a DRAM slot. */
  lemma HomeFromDram(s: State, i: nat)
    requires Core(s) && !s.ckpt && i < |s.att.entries| && UsesDram(s.att.entries[i].state)
    ensures var e := s.att.entries[i];
      && Copy(s, e.tag, e.base).Ok? && DiscardDram(Copy(s, e.tag, e.base).value, i).Ok?
      && var t := DiscardDram(Copy(s, e.tag, e.base).value, i).value;
      && Moved(s, t, e.tag, Free, e.tag, true) && Spent(t) == Spent(s)
      && t.att.entries == s.att.entries[i := e.(state := Free)]
  {
    var e := s.att.entries[i];
    assert EntryOk(s, i) && SideOk(s, i);
    EntryRegion(s, i);
    DramGive(s, i);
    ShiftStateOk(s.att, i, Free);
    var t := DiscardDram(Copy(s, e.tag, e.base).value, i).value;
    SpentSame(s, t, i);
    EntryMove(s, t, i, Free, e.tag, Copied);
  }
}
