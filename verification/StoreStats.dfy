/** MemStore's event counters: every store is reported once as an NVM or DRAM write, and once as a
    table hit, a table miss or a plain DRAM hit. */
module StoreStats {
  import opened Outcomes
  import opened VersionBuffers
  import opened TranslationTables
  import opened PageTables
  import opened Controllers

  /** One table miss more, or one hit more, and nothing else. */
  predicate Served(a: Stats, b: Stats, missed: bool) {
    b == if missed then a.(attMisses := a.attMisses + 1) else a.(attHits := a.attHits + 1)
  }

  /** An entry for a new block is to be had only by eviction. */
  predicate NoneFree(t: Table) {
    |t.queues| == 4 && Queue(t, Free) == []
  }

  lemma MoveStats(s: State, i: nat, move: bool)
    ensures FreeClean(s, i).Ok? ==> FreeClean(s, i).value.stats == s.stats
    ensures FreeLoan(s, i, move).Ok? ==> FreeLoan(s, i, move).value.stats == s.stats
    ensures HideTemp(s, i, move).Ok? ==> HideTemp(s, i, move).value.stats == s.stats
    ensures HideClean(s, i, move).Ok? ==> HideClean(s, i, move).value.stats == s.stats
    ensures DirtyStained(s, i, move).Ok? ==> DirtyStained(s, i, move).value.0.stats == s.stats
    ensures ResetClean(s, i, move).Ok? ==> ResetClean(s, i, move).value.0.stats == s.stats
  {
  }

  lemma SetupStats(s: State, tag: nat, base: nat, st: EntryState, move: bool)
    ensures Controllers.Setup(s, tag, base, st, move).Ok? ==>
      Controllers.Setup(s, tag, base, st, move).value.0.stats == s.stats
  {
  }

  lemma EvictStats(s: State)
    ensures EvictClean(s).Ok? ==> Served(s.stats, EvictClean(s).value.stats, NoneFree(s.att))
    ensures EvictAny(s).Ok? ==> Served(s.stats, EvictAny(s).value.stats, NoneFree(s.att))
  {
    if |s.att.queues| == 4 && Queue(s.att, Clean) != [] {
      MoveStats(s, Queue(s.att, Clean)[0], true);
    }
    if |s.att.queues| == 4 && Queue(s.att, Loan) != [] {
      MoveStats(s, Queue(s.att, Loan)[0], true);
    }
  }

  lemma MissStats(s: State, tag: nat, full: bool)
    ensures NvmMissRunning(s, tag, full).Ok? ==> Served(s.stats, NvmMissRunning(s, tag, full).value.0.stats, NoneFree(s.att))
    ensures NvmMissCkpt(s, tag, full).Ok? ==> Served(s.stats, NvmMissCkpt(s, tag, full).value.0.stats, NoneFree(s.att))
  {
    EvictStats(s);
    if EvictAny(s).Ok? && Alloc(EvictAny(s).value.nvm).Ok? {
      var m := EvictAny(s).value;
      var (nvm, base) := Alloc(m.nvm).value;
      SetupStats(m.(nvm := nvm), tag, base, Dirty, !full);
    }
    if EvictClean(s).Ok? && Alloc(EvictClean(s).value.dram).Ok? {
      var m := EvictClean(s).value;
      var (dram, base) := Alloc(m.dram).value;
      SetupStats(m.(dram := dram), tag, base, Stained, !full);
    }
  }

  lemma HitStats(s: State, i: nat, tag: nat, full: bool)
    ensures NvmHitRunning(s, i, tag, full).Ok? ==> NvmHitRunning(s, i, tag, full).value.0.stats == s.stats
    ensures NvmHitCkpt(s, i, full).Ok? ==> NvmHitCkpt(s, i, full).value.0.stats == s.stats
  {
    MoveStats(s, i, !full);
  }

  lemma NvmStoreStats(s: State, tag: nat, full: bool)
    requires NvmStore(s, tag, full).Ok?
    ensures Served(s.stats, NvmStore(s, tag, full).value.0.stats, tag !in s.att.index && NoneFree(s.att))
  {
    var (att, hit) := Lookup(s.att, tag).value;
    var m := s.(att := att);
    if hit.Some? {
      HitStats(Hit(m), hit.value, tag, full);
    } else {
      MissStats(m, tag, full);
    }
  }

  lemma DramStoreStats(s: State, tag: nat, full: bool)
    requires DramStore(s, tag, full).Ok?
    ensures var t := DramStore(s, tag, full).value.0.stats;
      if tag !in s.att.index && !s.ckpt then t == s.stats.(dramHits := s.stats.dramHits + 1)
      else Served(s.stats, t, tag !in s.att.index && NoneFree(s.att))
  {
    var (att, hit) := Lookup(s.att, tag).value;
    var m := s.(att := att);
    if hit.Some? {
      MoveStats(Hit(m), hit.value, !full);
    } else {
      EvictStats(m);
      if m.ckpt {
        var e := EvictClean(m).value;
        var (dram, base) := Alloc(e.dram).value;
        SetupStats(e.(dram := dram), tag, base, Loan, !full);
      }
    }
  }

  /** Each completed store is counted once as a write, and once more: while running, one to a page in DRAM
      without an entry is a DRAM hit; otherwise it is a table miss if its block has no entry and none is
      free, and a table hit if not. */
  ghost predicate Booked(s: State, b: Stats, x: nat) {
    var dram, found := IsDram(s, x), x in s.att.index;
    var inPlace := dram && !s.ckpt && !found;
    var missed := !inPlace && !found && NoneFree(s.att);
    b == Stats(s.stats.nvmWrites + (if dram then 0 else 1), s.stats.dramWrites + (if dram then 1 else 0),
               s.stats.attHits + (if inPlace || missed then 0 else 1), s.stats.attMisses + (if missed then 1 else 0),
               s.stats.dramHits + (if inPlace then 1 else 0))
  }

  lemma RouteNvm(s: State, x: nat, m: State)
    requires x < s.phyBlocks && !IsDram(s, x) && m == s.(stats := s.stats.(nvmWrites := s.stats.nvmWrites + 1))
    ensures RouteStore(s, x) == Ok((m, false))
  {
  }

  lemma RouteDram(s: State, x: nat, m: State, page: nat)
    requires x < s.phyBlocks && page == PageNumber(x, s.ptt.pageBlocks) && page in s.ptt.pages
    requires s.ptt.pages[page].base == page && RecordWrite(s.ptt, page) == Ok(m.ptt)
    requires m == s.(ptt := m.ptt, stats := s.stats.(dramWrites := s.stats.dramWrites + 1))
    ensures RouteStore(s, x) == Ok((m, true))
  {
  }

  lemma StoreNvmStats(s: State, m: State, tag: nat, full: bool, t: State, to: nat)
    requires NvmStore(m, tag, full) == Ok((t, to)) && m == s.(stats := s.stats.(nvmWrites := s.stats.nvmWrites + 1))
    requires !IsDram(s, tag)
    ensures Booked(s, t.stats, tag)
  {
    NvmStoreStats(m, tag, full);
  }

  lemma StoreDramStats(s: State, m: State, tag: nat, full: bool, t: State, to: nat)
    requires DramStore(m, tag, full) == Ok((t, to)) && m.stats == s.stats.(dramWrites := s.stats.dramWrites + 1)
    requires IsDram(s, tag) && m.att == s.att && m.ckpt == s.ckpt
    ensures Booked(s, t.stats, tag)
  {
    DramStoreStats(m, tag, full);
  }
}
