/** The address translation controller as an object. Each method is proved to do to the represented
    state what the function of the same name says. */
module AddrTransControllers {
  import opened Outcomes
  import opened VersionBuffers
  import opened TranslationTables
  import opened PageTables
  import opened IndexQueues
  import opened AddrTransTables
  import opened SlotBuffers
  import opened MigrationControllers
  import opened QueueWalks
  import opened Controllers
  import Spec = Controllers

  /** No assertion of MigratePages fails, whatever order the hash tables are visited in. */
  ghost predicate MigrationReady(s: State, dirtyMin: int, writeMax: int) {
    && !s.ckpt && |s.att.queues| == 4 && Spec.RevokeLoans(s, Queue(s.att, Loan)).Ok?
    && var s1 := Spec.RevokeLoans(s, Queue(s.att, Loan)).value;
    && |s1.att.queues| == 4 && Queue(s1.att, Loan) == []
    && s1.ptt.nvmPages == map[] && |WrittenPages(s1.ptt.pages)| == s1.ptt.dirty
    && Collect(s1.att.entries, |s1.att.entries|, s1.ptt.pageBlocks).Ok?
    && forall a, b {:trigger MigrateInput(s, a, b)} ::
         MigrateInput(s, a, b).Ok? ==> MigrateLoops(MigrateInput(s, a, b).value, dirtyMin, writeMax).Ok?
  }

  /** The two halves of NvmStore after the lookup. */
  function CountedHit(s: State, i: nat, tag: nat, full: bool): Outcome<(State, nat)> {
    var (s2, base) :- if s.ckpt then Spec.NvmHitCkpt(Hit(s), i, full) else Spec.NvmHitRunning(Hit(s), i, tag, full);
    var att2 :- AddWrite(s2.att, i);
    Ok((s2.(att := att2), base))
  }

  function CountedMiss(s: State, tag: nat, full: bool): Outcome<(State, nat)> {
    var (s2, i, base) :- if s.ckpt then Spec.NvmMissCkpt(s, tag, full) else Spec.NvmMissRunning(s, tag, full);
    var att2 :- AddWrite(s2.att, i);
    Ok((s2.(att := att2), base))
  }

  /** If the page table is full, a page without writes leaves it; otherwise the exchange loop ends. */
  function MakeRoom(s: State): Outcome<(State, Option<Exit>)> {
    if |s.ptt.pages| != s.ptt.capacity then Ok((s, None))
    else
      var y :- ExtractDram(s.ptt);
      if y.None? then Ok((s, Some(Return)))
      else
        var s1 := s.(ptt := y.value.0);
        if y.value.1.writes > 0 then Ok((s1, Some(Proceed(Some(y.value.1)))))
        else
          var s2 :- Spec.MigrateDram(s1, y.value.1);
          Ok((s2, None))
  }

  /** One turn of the exchange loop: how it ends the loop, if it does. */
  function ExchangeOnce(s: State, dirtyMin: int): Outcome<(State, Option<Exit>)> {
    var x :- ExtractNvm(s.ptt);
    if x.None? then Ok((s, Some(Proceed(None))))
    else
      var s1 := s.(ptt := x.value.0);
      if x.value.1.dirtyBlocks < dirtyMin then Ok((s1, Some(Proceed(None))))
      else
        var (s2, exit) :- MakeRoom(s1);
        if exit.Some? then Ok((s2, exit))
        else
          var s3 :- Spec.MigrateNvm(s2, x.value.1);
          Ok((s3, None))
  }

  lemma {:induction false} ExchangeTurns(s: State, dirtyMin: int)
    requires Spec.ExchangePages(s, dirtyMin).Ok?
    ensures ExchangeOnce(s, dirtyMin).Ok?
    ensures var (m, exit) := ExchangeOnce(s, dirtyMin).value;
      && (exit.None? ==> |m.ptt.nvmHeap| < |s.ptt.nvmHeap|)
      && Spec.ExchangePages(s, dirtyMin) ==
           if exit.Some? then Ok((m, exit.value)) else Spec.ExchangePages(m, dirtyMin)
  {
    var x := ExtractNvm(s.ptt).value;
    if x.Some? && x.value.1.dirtyBlocks >= dirtyMin {
      var s1, n := s.(ptt := x.value.0), x.value.1;
      if |s1.ptt.pages| == s1.ptt.capacity {
        var y := ExtractDram(s1.ptt).value;
        if y.Some? && y.value.1.writes == 0 {
          var s2 := Spec.MigrateDram(s1.(ptt := y.value.0), y.value.1).value;
          assert MakeRoom(s1) == Ok((s2, None));
          var s3 := Spec.MigrateNvm(s2, n).value;
          assert ExchangeOnce(s, dirtyMin) == Ok((s3, None));
        }
      } else {
        var s3 := Spec.MigrateNvm(s1, n).value;
        assert ExchangeOnce(s, dirtyMin) == Ok((s3, None));
      }
    }
  }

  /** From `s` the loop over the `left` blocks from `tag` ends in `t`. */
  ghost predicate EvictsTo(s: State, tag: nat, left: nat, t: State) {
    forall u {:trigger Unlocked(u)} :: Unlocked(u) ==> Spec.EvictBlocks(s, tag, left) == Ok(t)
  }

  lemma EvictTurns(s: State, tag: nat, left: nat, t: State)
    requires EvictsTo(s, tag, left, t)
    ensures left == 0 ==> s == t
    ensures left > 0 ==> Spec.EvictBlock(s, tag).Ok? && EvictsTo(Spec.EvictBlock(s, tag).value, tag + 1, left - 1, t)
  {
    assert Unlocked(0);
  }

  class AddrTransController {
    const att: AddrTransTable
    const nvm: VersionBuffer
    const dram: VersionBuffer
    const migrator: MigrationController
    const phyBlocks: nat
    const blockSize: Positive
    const mem: array<Block>
    var ckpt: bool
    var toDram: nat
    var toNvm: nat
    var stats: Stats

    ghost predicate Valid()
      reads att, att.entries, att.nodes, att.queues
    {
      att.Valid() && nvm != dram
    }

    /** The state this object represents. */
    ghost function Abs(): State
      reads this, att, nvm, dram, migrator, mem
    {
      State(att.view, nvm.Abs(), dram.Abs(), migrator.Abs(), phyBlocks, blockSize, mem[..],
            ckpt, toDram, toNvm, stats)
    }

    constructor (phyBlocks: nat, blockSize: Positive, attLength: nat,
                 pageBlocks: Positive, pttLength: nat, mem: array<Block>)
      requires pttLength * pageBlocks <= phyBlocks
      ensures Valid() && this.mem == mem
      ensures Abs() == Init(phyBlocks, blockSize, attLength, pageBlocks, pttLength, mem[..])
    {
      this.phyBlocks, this.blockSize, this.mem := phyBlocks, blockSize, mem;
      att := new AddrTransTable(attLength);
      nvm := new VersionBuffer(phyBlocks, 2 * attLength);
      dram := new VersionBuffer(phyBlocks + 2 * attLength, attLength);
      migrator := new MigrationController(pageBlocks, pttLength);
      ckpt, toDram, toNvm, stats := false, 0, 0, Stats(0, 0, 0, 0, 0);
    }

    /** CopyBlockIntra and CopyBlockInter. */
    method CopyBlock(dest: nat, src: nat)
      requires Copy(Abs(), dest, src).Ok?
      modifies mem
      ensures Copy(old(Abs()), dest, src) == Ok(Abs())
    {
      mem[dest] := mem[src];
    }

    method SwapBlock(a: nat, b: nat)
      requires Swap(Abs(), a, b).Ok?
      modifies mem
      ensures Swap(old(Abs()), a, b) == Ok(Abs())
    {
      mem[a], mem[b] := mem[b], mem[a];
    }

    method Setup(tag: nat, base: nat, st: EntryState, move: bool) returns (i: nat)
      requires Valid() && Spec.Setup(Abs(), tag, base, st, move).Ok?
      modifies mem, att, att.entries, att.nodes, att.queues
      ensures Valid() && Spec.Setup(old(Abs()), tag, base, st, move) == Ok((Abs(), i))
    {
      if move {
        CopyBlock(base, tag);
      }
      i := att.Setup(tag, base, st);
    }

    method HideClean(i: nat, move: bool)
      requires Valid() && Spec.HideClean(Abs(), i, move).Ok?
      modifies mem, nvm, att, att.entries, att.nodes, att.queues
      ensures Valid() && Spec.HideClean(old(Abs()), i, move) == Ok(Abs())
    {
      var e := att.entries[i];
      if move {
        CopyBlock(e.tag, e.base);
      }
      nvm.SlotBackup(e.base, Backup0);
      att.Reset(i, e.tag, Hidden);
    }

    method ResetClean(i: nat, move: bool) returns (base: nat)
      requires Valid() && Spec.ResetClean(Abs(), i, move).Ok?
      modifies mem, nvm, dram, att, att.entries, att.nodes, att.queues
      ensures Valid() && Spec.ResetClean(old(Abs()), i, move) == Ok((Abs(), base))
    {
      var e := att.entries[i];
      base := dram.SlotAlloc();
      if move {
        CopyBlock(base, e.base);
      }
      nvm.SlotBackup(e.base, Backup1);
      att.Reset(i, base, Temp);
    }

    method FreeClean(i: nat)
      requires Valid() && Spec.FreeClean(Abs(), i).Ok?
      modifies mem, nvm, att, att.entries, att.nodes, att.queues
      ensures Valid() && Spec.FreeClean(old(Abs()), i) == Ok(Abs())
    {
      var e := att.entries[i];
      if ckpt {
        SwapBlock(e.tag, e.base);
      } else {
        CopyBlock(e.tag, e.base);
      }
      nvm.SlotBackup(e.base, if ckpt then Backup1 else Backup0);
      att.ShiftState(i, Free);
    }

    method DirtyStained(i: nat, move: bool) returns (base: nat)
      requires Valid() && Spec.DirtyStained(Abs(), i, move).Ok?
      modifies mem, nvm, dram, att, att.entries, att.nodes, att.queues
      ensures Valid() && Spec.DirtyStained(old(Abs()), i, move) == Ok((Abs(), base))
    {
      var e := att.entries[i];
      base := nvm.SlotAlloc();
      if move {
        CopyBlock(base, e.base);
      }
      dram.FreeSlot(e.base, InUse);
      att.Reset(i, base, Dirty);
    }

    method FreeLoan(i: nat, move: bool)
      requires Valid() && Spec.FreeLoan(Abs(), i, move).Ok?
      modifies mem, dram, att, att.entries, att.nodes, att.queues
      ensures Valid() && Spec.FreeLoan(old(Abs()), i, move) == Ok(Abs())
    {
      var e := att.entries[i];
      if move {
        CopyBlock(e.tag, e.base);
      }
      dram.FreeSlot(e.base, InUse);
      att.ShiftState(i, Free);
    }

    method HideTemp(i: nat, move: bool)
      requires Valid() && Spec.HideTemp(Abs(), i, move).Ok?
      modifies mem, dram, att, att.entries, att.nodes, att.queues
      ensures Valid() && Spec.HideTemp(old(Abs()), i, move) == Ok(Abs())
    {
      var e := att.entries[i];
      if move {
        CopyBlock(e.tag, e.base);
      }
      dram.FreeSlot(e.base, InUse);
      att.Reset(i, e.tag, Hidden);
    }

    // ----- loads and stores -----

    method LoadBlock(tag: nat) returns (base: nat)
      requires Valid() && Spec.LoadBlock(Abs(), tag).Ok?
      modifies att, att.entries, att.nodes, att.queues, migrator
      ensures Valid() && Spec.LoadBlock(old(Abs()), tag) == Ok((Abs(), base))
    {
      var i := att.Lookup(tag);
      if i != NONE {
        base := att.entries[i].base;
        att.AddBlockRead(i);
      } else {
        var page := migrator.LookupPage(tag);
        if page.None? {
          base := tag;
        } else {
          migrator.AddPageRead(page.value.base);
          base := PageTranslate(tag, page.value.base, migrator.pageBlocks);
        }
      }
    }

    /** OnATTWriteHit. */
    method CountHit()
      modifies this`stats
      ensures Abs() == Hit(old(Abs()))
    {
      stats := stats.(attHits := stats.attHits + 1);
    }

    /** OnATTWriteMiss. */
    method CountMiss()
      modifies this`stats
      ensures Abs() == Miss(old(Abs()))
    {
      stats := stats.(attMisses := stats.attMisses + 1);
    }

    /** Room for a new entry while checkpointing. */
    method EvictClean()
      requires Valid() && Spec.EvictClean(Abs()).Ok?
      modifies this`stats, mem, nvm, att, att.entries, att.nodes, att.queues
      ensures Valid() && Spec.EvictClean(old(Abs())) == Ok(Abs())
    {
      if att.IsEmpty(Free) {
        FreeClean(att.GetFront(Clean));
        CountMiss();
      } else {
        CountHit();
      }
    }

    /** Room for a new entry while running. */
    method EvictAny()
      requires Valid() && Spec.EvictAny(Abs()).Ok?
      modifies this`stats, mem, nvm, dram, att, att.entries, att.nodes, att.queues
      ensures Valid() && Spec.EvictAny(old(Abs())) == Ok(Abs())
    {
      if att.IsEmpty(Free) {
        if !att.IsEmpty(Loan) {
          FreeLoan(att.GetFront(Loan), true);
        } else {
          FreeClean(att.GetFront(Clean));
        }
        CountMiss();
      } else {
        CountHit();
      }
    }

    method DramStore(tag: nat, full: bool) returns (base: nat)
      requires Valid() && Spec.DramStore(Abs(), tag, full).Ok?
      modifies this`stats, mem, nvm, dram, att, att.entries, att.nodes, att.queues
      ensures Valid() && Spec.DramStore(old(Abs()), tag, full) == Ok((Abs(), base))
    {
      var i := att.Lookup(tag);
      assert Abs() == old(Abs()).(att := Abs().att);
      if i != NONE {
        CountHit();
        if ckpt {
          base := att.entries[i].base;
        } else {
          FreeLoan(i, !full);
          base := tag;
        }
      } else if ckpt {
        EvictClean();
        base := dram.SlotAlloc();
        var _ := Setup(tag, base, Loan, !full);
      } else {
        stats := stats.(dramHits := stats.dramHits + 1);
        base := tag;
      }
    }

    method NvmHitRunning(i: nat, tag: nat, full: bool) returns (base: nat)
      requires Valid() && Spec.NvmHitRunning(Abs(), i, tag, full).Ok?
      modifies mem, nvm, dram, att, att.entries, att.nodes, att.queues
      ensures Valid() && Spec.NvmHitRunning(old(Abs()), i, tag, full) == Ok((Abs(), base))
    {
      match att.entries[i].state {
        case Temp =>
          HideTemp(i, !full);
          base := att.entries[i].base;
        case Dirty => base := att.entries[i].base;
        case Hidden => base := att.entries[i].base;
        case Stained => base := DirtyStained(i, !full);
        case _ =>
          HideClean(i, !full);
          base := tag;
      }
    }

    method NvmMissRunning(tag: nat, full: bool) returns (i: nat, base: nat)
      requires Valid() && Spec.NvmMissRunning(Abs(), tag, full).Ok?
      modifies this`stats, mem, nvm, dram, att, att.entries, att.nodes, att.queues
      ensures Valid() && Spec.NvmMissRunning(old(Abs()), tag, full) == Ok((Abs(), i, base))
    {
      EvictAny();
      base := nvm.SlotAlloc();
      i := Setup(tag, base, Dirty, !full);
    }

    method NvmHitCkpt(i: nat, full: bool) returns (base: nat)
      requires Valid() && Spec.NvmHitCkpt(Abs(), i, full).Ok?
      modifies mem, nvm, dram, att, att.entries, att.nodes, att.queues
      ensures Valid() && Spec.NvmHitCkpt(old(Abs()), i, full) == Ok((Abs(), base))
    {
      if att.entries[i].state == Temp || att.entries[i].state == Stained {
        base := att.entries[i].base;
      } else {
        base := ResetClean(i, !full);
      }
    }

    method NvmMissCkpt(tag: nat, full: bool) returns (i: nat, base: nat)
      requires Valid() && Spec.NvmMissCkpt(Abs(), tag, full).Ok?
      modifies this`stats, mem, nvm, dram, att, att.entries, att.nodes, att.queues
      ensures Valid() && Spec.NvmMissCkpt(old(Abs()), tag, full) == Ok((Abs(), i, base))
    {
      EvictClean();
      base := dram.SlotAlloc();
      i := Setup(tag, base, Stained, !full);
    }

    /** NVMStore, once the entry has been found: store through it and count the write. */
    method NvmHit(i: nat, tag: nat, full: bool) returns (base: nat)
      requires Valid() && CountedHit(Abs(), i, tag, full).Ok?
      modifies this`stats, mem, nvm, dram, att, att.entries, att.nodes, att.queues
      ensures Valid() && CountedHit(old(Abs()), i, tag, full) == Ok((Abs(), base))
    {
      CountHit();
      if ckpt {
        base := NvmHitCkpt(i, full);
      } else {
        base := NvmHitRunning(i, tag, full);
      }
      att.AddBlockWrite(i);
    }

    /** NVMStore without an entry: set one up and count the write. */
    method NvmMiss(tag: nat, full: bool) returns (base: nat)
      requires Valid() && CountedMiss(Abs(), tag, full).Ok?
      modifies this`stats, mem, nvm, dram, att, att.entries, att.nodes, att.queues
      ensures Valid() && CountedMiss(old(Abs()), tag, full) == Ok((Abs(), base))
    {
      var i;
      if ckpt {
        i, base := NvmMissCkpt(tag, full);
      } else {
        i, base := NvmMissRunning(tag, full);
      }
      att.AddBlockWrite(i);
    }

    method NvmStore(tag: nat, full: bool) returns (base: nat)
      requires Valid() && Spec.NvmStore(Abs(), tag, full).Ok?
      modifies this`stats, mem, nvm, dram, att, att.entries, att.nodes, att.queues
      ensures Valid() && Spec.NvmStore(old(Abs()), tag, full) == Ok((Abs(), base))
    {
      var i := att.Lookup(tag);
      assert Abs() == old(Abs()).(att := Abs().att);
      if i != NONE {
        base := NvmHit(i, tag, full);
      } else {
        base := NvmMiss(tag, full);
      }
    }

    /** The page side of a store: count it and leave the clean states. */
    method RecordPageWrite(page: Page)
      requires page.base in migrator.pages && migrator.pages[page.base] == page
      modifies migrator
      ensures RecordWrite(old(migrator.Abs()), page.base) == Ok(migrator.Abs())
    {
      migrator.AddPageWrite(page.base);
      if page.state == CleanStatic {
        migrator.ShiftState(page.base, DirtyDirect);
      } else if page.state == CleanDirect {
        migrator.ShiftState(page.base, DirtyStatic);
      }
    }

    /** StoreAddr's first part: counts the store and says whether its page is in DRAM. */
    method RouteStore(tag: nat) returns (dram: bool)
      requires Spec.RouteStore(Abs(), tag).Ok?
      requires forall g :: g in migrator.pages ==> migrator.pages[g].base == g
      modifies this`stats, migrator
      ensures Spec.RouteStore(old(Abs()), tag) == Ok((Abs(), dram))
    {
      var page := migrator.LookupPage(tag);
      if page.None? {
        stats := stats.(nvmWrites := stats.nvmWrites + 1);
        dram := false;
      } else {
        RecordPageWrite(page.value);
        stats := stats.(dramWrites := stats.dramWrites + 1);
        dram := true;
      }
    }

    method StoreBlock(tag: nat, full: bool) returns (base: nat)
      requires Valid() && Spec.StoreBlock(Abs(), tag, full).Ok?
      requires forall g :: g in migrator.pages ==> migrator.pages[g].base == g
      modifies this`stats, mem, nvm, dram, migrator, att, att.entries, att.nodes, att.queues
      ensures Valid() && Spec.StoreBlock(old(Abs()), tag, full) == Ok((Abs(), base))
    {
      var inDram := RouteStore(tag);
      if inDram {
        base := DramStore(tag, full);
      } else {
        base := NvmStore(tag, full);
      }
    }

    function Probe(tag: nat): (c: Control)
      requires Valid()
      reads this, att, att.entries, att.nodes, att.queues, migrator, nvm, dram, mem
      ensures c == Spec.Probe(Abs(), tag)
    {
      if migrator.LookupPage(tag).Some? then
        if ckpt && !att.Contains(tag) && att.IsEmpty(Free) && att.IsEmpty(Clean) then WaitCkpt else RegWrite
      else if !att.Contains(tag) then
        if ckpt then
          if att.IsEmpty(Free) && att.IsEmpty(Clean) then WaitCkpt else RegWrite
        else if att.GetLength(Dirty) == att.entries.Length || migrator.dirty >= migrator.length then NewEpoch
        else RegWrite
      else RegWrite
    }

    // ----- checkpointing -----

    /** DirtyCleaner::Visit. */
    method CleanEntry(i: nat)
      requires Valid() && Spec.CleanEntry(Abs(), i).Ok?
      modifies mem, nvm, dram, att, att.entries, att.nodes, att.queues
      ensures Valid() && Spec.CleanEntry(old(Abs()), i) == Ok(Abs())
    {
      if att.entries[i].state == Stained {
        var _ := DirtyStained(i, true);
      } else if att.entries[i].state == Temp {
        HideTemp(i, true);
      }
      if att.entries[i].state == Dirty {
        att.ShiftState(i, Clean);
      } else if att.entries[i].state == Hidden {
        att.ShiftState(i, Free);
      }
    }

    /** The link read before a visit leads to the next entry of the queue. */
    lemma NextInQueue(st: EntryState)
      requires Valid() && Queue(att.view, st) != []
      ensures Queue(att.view, st)[0] < att.nodes.Length == att.entries.Length
      ensures att.nodes[Queue(att.view, st)[0]].next == FrontOf(Queue(att.view, st)[1..])
    {
      assert att.Holds(att.view.queues, StateIndex(st));
      assert LinkedAt(att.nodes[..], Queue(att.view, st), 0);
    }

    /** VisitQueue(DIRTY, DirtyCleaner): follows `next`, read before each visit. */
    method CleanEntries()
      requires Valid() && Spec.CleanEntries(Abs(), Queue(att.view, Dirty)).Ok?
      modifies mem, nvm, dram, att, att.entries, att.nodes, att.queues
      ensures Valid() && Spec.CleanEntries(old(Abs()), old(Queue(att.view, Dirty))) == Ok(Abs())
    {
      var i := att.GetFront(Dirty);
      while i != NONE
        invariant Valid() && i == FrontOf(Queue(att.view, Dirty))
        invariant Spec.CleanEntries(Abs(), Queue(att.view, Dirty)) == old(Spec.CleanEntries(Abs(), Queue(att.view, Dirty)))
        decreases |Queue(att.view, Dirty)|
      {
        NextInQueue(Dirty);
        var next := att.nodes[i].next;
        CleanedQueue(Abs(), i);
        CleanEntry(i);
        i := next;
      }
    }

    method BeginCheckpointing()
      requires Valid() && Spec.BeginCheckpointing(Abs()).Ok?
      modifies this`ckpt, mem, nvm, dram, migrator, att, att.entries, att.nodes, att.queues
      ensures Valid() && Spec.BeginCheckpointing(old(Abs())) == Ok(Abs())
    {
      CleanEntries();
      assert att.GetLength(Clean) + att.GetLength(Free) == att.entries.Length;
      ckpt := true;
      att.ClearStats();
      migrator.Clear();
    }

    method FinishCheckpointing()
      requires Valid() && Spec.FinishCheckpointing(Abs()).Ok?
      modifies this`ckpt, nvm
      ensures Valid() && Spec.FinishCheckpointing(old(Abs())) == Ok(Abs())
    {
      nvm.ClearBackup();
      ckpt := false;
    }

    // ----- migration -----

    /** LoanRevoker over the Loan queue. */
    method RevokeLoans()
      requires Valid() && Spec.RevokeLoans(Abs(), Queue(att.view, Loan)).Ok?
      modifies mem, dram, att, att.entries, att.nodes, att.queues
      ensures Valid() && Spec.RevokeLoans(old(Abs()), old(Queue(att.view, Loan))) == Ok(Abs())
    {
      var i := att.GetFront(Loan);
      while i != NONE
        invariant Valid() && i == FrontOf(Queue(att.view, Loan))
        invariant Spec.RevokeLoans(Abs(), Queue(att.view, Loan)) == old(Spec.RevokeLoans(Abs(), Queue(att.view, Loan)))
        decreases |Queue(att.view, Loan)|
      {
        NextInQueue(Loan);
        var next := att.nodes[i].next;
        FreedQueue(Abs(), i);
        FreeLoan(i, true);
        i := next;
      }
    }

    method Discard(i: nat, vb: VersionBuffer)
      requires Valid() && (vb == nvm || vb == dram)
      requires vb == nvm ==> DiscardNvm(Abs(), i).Ok?
      requires vb == dram ==> DiscardDram(Abs(), i).Ok?
      modifies vb, att, att.entries, att.nodes, att.queues
      ensures Valid()
      ensures vb == nvm ==> DiscardNvm(old(Abs()), i) == Ok(Abs())
      ensures vb == dram ==> DiscardDram(old(Abs()), i) == Ok(Abs())
    {
      vb.FreeSlot(att.entries[i].base, InUse);
      att.ShiftState(i, Free);
    }

    /** The switch of MigrateNVM. */
    method SendHome(i: nat)
      requires Valid() && Spec.SendHome(Abs(), i).Ok?
      modifies mem, nvm, dram, att, att.entries, att.nodes, att.queues
      ensures Valid() && Spec.SendHome(old(Abs()), i) == Ok(Abs())
    {
      var e := att.entries[i];
      if e.state == Clean || e.state == Dirty {
        CopyBlock(e.tag, e.base);
        Discard(i, nvm);
      } else if e.state == Stained || e.state == Temp {
        CopyBlock(e.tag, e.base);
        Discard(i, dram);
      } else {
        att.ShiftState(i, Free);
      }
    }

    method EvictBlock(tag: nat)
      requires Valid() && Spec.EvictBlock(Abs(), tag).Ok?
      modifies mem, nvm, dram, att, att.entries, att.nodes, att.queues
      ensures Valid() && Spec.EvictBlock(old(Abs()), tag) == Ok(Abs())
    {
      var i := att.Lookup(tag);
      if i != NONE {
        SendHome(i);
      }
    }

    /** The loop of MigrateNVM over the blocks of a page. */
    method EvictBlocks(first: nat, count: nat)
      requires Valid() && Spec.EvictBlocks(Abs(), first, count).Ok?
      modifies mem, nvm, dram, att, att.entries, att.nodes, att.queues
      ensures Valid() && Spec.EvictBlocks(old(Abs()), first, count) == Ok(Abs())
    {
      ghost var end := Spec.EvictBlocks(Abs(), first, count).value;
      for j := 0 to count
        invariant Valid() && EvictsTo(Abs(), first + j, count - j, end)
      {
        EvictTurns(Abs(), first + j, count - j, end);
        EvictBlock(first + j);
      }
      EvictTurns(Abs(), first + count, 0, end);
    }

    method MigrateNvm(n: NvmStats)
      requires Valid() && Spec.MigrateNvm(Abs(), n).Ok?
      modifies this`toDram, mem, nvm, dram, migrator, att, att.entries, att.nodes, att.queues
      ensures Valid() && Spec.MigrateNvm(old(Abs()), n) == Ok(Abs())
    {
      var k := migrator.pageBlocks;
      EvictBlocks(FirstBlock(n.page, k), k);
      migrator.Setup(n.page, if 2 * n.dirtyBlocks > k then CleanStatic else CleanDirect);
      toDram := toDram + 1;
    }

    method MigrateDram(d: DramStats)
      requires Spec.MigrateDram(Abs(), d).Ok?
      modifies migrator
      ensures Spec.MigrateDram(old(Abs()), d) == Ok(Abs())
    {
      migrator.Free(d.page);
    }

    /** The inner part of the exchange loop: a DRAM page is given up if there is no room for another. */
    method FreeSlot() returns (exit: Option<Exit>)
      requires MakeRoom(Abs()).Ok?
      modifies migrator
      ensures MakeRoom(old(Abs())) == Ok((Abs(), exit))
    {
      if |migrator.pages| != migrator.capacity {
        return None;
      }
      var d := migrator.ExtractDramPage();
      if d.None? {
        return Some(Return);
      }
      if d.value.writes > 0 {
        return Some(Proceed(Some(d.value)));
      }
      MigrateDram(d.value);
      return None;
    }

    /** One turn of MigratePages' first loop; it ends the loop with `exit`, if any. */
    method ExchangePage(dirtyMin: int) returns (exit: Option<Exit>)
      requires Valid() && ExchangeOnce(Abs(), dirtyMin).Ok?
      modifies this`toDram, mem, nvm, dram, migrator, att, att.entries, att.nodes, att.queues
      ensures Valid() && ExchangeOnce(old(Abs()), dirtyMin) == Ok((Abs(), exit))
    {
      var n := migrator.ExtractNvmPage();
      if n.None? || n.value.dirtyBlocks < dirtyMin {
        return Some(Proceed(None));
      }
      exit := FreeSlot();
      if exit.None? {
        MigrateNvm(n.value);
      }
    }

    /** MigratePages' first loop: dirty NVM pages come in, for clean DRAM pages if there is no room. */
    method ExchangePages(dirtyMin: int) returns (exit: Exit)
      requires Valid() && Spec.ExchangePages(Abs(), dirtyMin).Ok?
      modifies this`toDram, mem, nvm, dram, migrator, att, att.entries, att.nodes, att.queues
      ensures Valid() && Spec.ExchangePages(old(Abs()), dirtyMin) == Ok((Abs(), exit))
    {
      while true
        invariant Valid() && Spec.ExchangePages(Abs(), dirtyMin) == old(Spec.ExchangePages(Abs(), dirtyMin))
        decreases |migrator.nvmHeap|
      {
        ExchangeTurns(Abs(), dirtyMin);
        var end := ExchangePage(dirtyMin);
        if end.Some? {
          return end.value;
        }
      }
    }

    /** The body of MigratePages' second loop for page `d`. */
    method ReturnPage(d: DramStats, limit: int, writeMax: int) returns (stop: bool, left: int)
      requires Spec.ReturnPages(Abs(), d, limit, writeMax).Ok?
      modifies this`toNvm, migrator
      ensures |migrator.dramHeap| <= old(|migrator.dramHeap|)
      ensures var r := Spec.ReturnPages(old(Abs()), d, limit, writeMax);
        r == if stop then Ok(Abs()) else ReturnMore(Abs(), left, writeMax)
    {
      left := limit;
      if d.writes > 0 {
        if d.writes > writeMax {
          return true, left;
        }
        MigrateDram(d);
        toNvm := toNvm + 1;
        left := left - 1;
      }
      return false, left;
    }

    /** MigratePages' second loop, from the page `first`. */
    method ReturnPages(first: DramStats, limit: int, writeMax: int)
      requires Spec.ReturnPages(Abs(), first, limit, writeMax).Ok?
      modifies this`toNvm, migrator
      ensures Spec.ReturnPages(old(Abs()), first, limit, writeMax) == Ok(Abs())
    {
      var d, left, stop := first, limit, false;
      while true
        invariant Spec.ReturnPages(Abs(), d, left, writeMax) == old(Spec.ReturnPages(Abs(), first, limit, writeMax))
        decreases |migrator.dramHeap|
      {
        stop, left := ReturnPage(d, left, writeMax);
        if stop || left == 0 {
          return;
        }
        var next := migrator.ExtractDramPage();
        if next.None? {
          return;
        }
        d := next.value;
      }
    }

    /** The part of MigratePages after its first loop. */
    method AfterExchange(exit: Exit, limit: int, writeMax: int)
      requires Spec.AfterExchange(Abs(), exit, limit, writeMax).Ok?
      modifies this`toNvm, migrator
      ensures Spec.AfterExchange(old(Abs()), exit, limit, writeMax) == Ok(Abs())
    {
      if exit.Return? {
        return;
      }
      var d := exit.ready;
      if d.None? {
        d := migrator.ExtractDramPage();
        if d.None? {
          return;
        }
      }
      ReturnPages(d.value, limit, writeMax);
    }

    /** Revokes the loans and fills the migrator's heaps. */
    method MigrateInput() returns (ghost nvmOrder: seq<nat>, ghost dramOrder: seq<nat>)
      requires Valid() && exists dirtyMin, writeMax :: MigrationReady(Abs(), dirtyMin, writeMax)
      modifies mem, dram, migrator, att, att.entries, att.nodes, att.queues
      ensures Valid() && Spec.MigrateInput(old(Abs()), nvmOrder, dramOrder) == Ok(Abs())
    {
      RevokeLoans();
      assert att.IsEmpty(Loan);
      nvmOrder, dramOrder := migrator.InputBlocks(att.entries);
    }

    method MigrateLoops(dirtyMin: int, writeMax: int)
      requires Valid() && Spec.MigrateLoops(Abs(), dirtyMin, writeMax).Ok?
      modifies this`toDram, this`toNvm, mem, nvm, dram, migrator, att, att.entries, att.nodes, att.queues
      ensures Valid() && Spec.MigrateLoops(old(Abs()), dirtyMin, writeMax) == Ok(Abs())
    {
      var exit := ExchangePages(dirtyMin);
      AfterExchange(exit, migrator.capacity - migrator.length, writeMax);
    }

    /** `dirtyMin` and `writeMax` are the block counts that the ratios `dr` and `wr` stand for. */
    method MigrateBy(dirtyMin: int, writeMax: int) returns (ghost nvmOrder: seq<nat>, ghost dramOrder: seq<nat>)
      requires Valid() && MigrationReady(Abs(), dirtyMin, writeMax)
      modifies this`toDram, this`toNvm, mem, nvm, dram, migrator, att, att.entries, att.nodes, att.queues
      ensures Valid() && Spec.MigrateInput(old(Abs()), nvmOrder, dramOrder).Ok?
      ensures Spec.MigrateLoops(Spec.MigrateInput(old(Abs()), nvmOrder, dramOrder).value, dirtyMin, writeMax) == Ok(Abs())
    {
      nvmOrder, dramOrder := MigrateInput();
      MigrateLoops(dirtyMin, writeMax);
    }

    method MigratePages(dr: real, wr: real) returns (ghost nvmOrder: seq<nat>, ghost dramOrder: seq<nat>)
      requires Valid()
      requires MigrationReady(Abs(), CountFrom(dr, migrator.pageBlocks), CountUpTo(wr, migrator.pageBlocks))
      modifies this`toDram, this`toNvm, mem, nvm, dram, migrator, att, att.entries, att.nodes, att.queues
      ensures Valid() && Spec.MigratePages(old(Abs()), dr, wr, nvmOrder, dramOrder) == Ok(Abs())
    {
      nvmOrder, dramOrder := MigrateBy(CountFrom(dr, migrator.pageBlocks), CountUpTo(wr, migrator.pageBlocks));
    }
  }
}
