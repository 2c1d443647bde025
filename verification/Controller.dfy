/** The address translation controller as a state machine on values. Addresses are block numbers:
    `[0, phyBlocks)` is the physical space, then the NVM buffer, then the DRAM buffer. */
module Controllers {
  import opened Outcomes
  import opened VersionBuffers
  import opened TranslationTables
  import opened PageTables

  type Byte = x: int | 0 <= x < 256
  type Block = seq<Byte>

  datatype Control = RegWrite | NewEpoch | WaitCkpt

  /** MemStore's event counters. */
  datatype Stats = Stats(nvmWrites: nat, dramWrites: nat, attHits: nat, attMisses: nat, dramHits: nat)

  datatype State = State(att: Table, nvm: Buffer, dram: Buffer, ptt: Ptt,
                         phyBlocks: nat, blockSize: Positive, mem: seq<Block>,
                         ckpt: bool, toDram: nat, toNvm: nat, stats: Stats)

  function Init(phyBlocks: nat, blockSize: Positive, attLength: nat,
                pageBlocks: Positive, pttLength: nat, mem: seq<Block>): State
  {
    State(Fresh(attLength),
          VersionBuffers.Empty(phyBlocks, 2 * attLength),
          VersionBuffers.Empty(phyBlocks + 2 * attLength, attLength),
          PageTables.Empty(pageBlocks, pttLength),
          phyBlocks, blockSize, mem, false, 0, 0, Stats(0, 0, 0, 0, 0))
  }

  // ----- block moves -----

  function Copy(s: State, dest: nat, src: nat): Outcome<State> {
    (:- Assert(dest < |s.mem| && src < |s.mem|);
     :- Assert(dest != src);
     Ok(s.(mem := s.mem[dest := s.mem[src]])))
  }

  function CopyIf(s: State, move: bool, dest: nat, src: nat): Outcome<State> {
    if move then Copy(s, dest, src) else Ok(s)
  }

  function Swap(s: State, a: nat, b: nat): Outcome<State> {
    (:- Assert(a < |s.mem| && b < |s.mem|);
     :- Assert(a != b);
     Ok(s.(mem := s.mem[a := s.mem[b]][b := s.mem[a]])))
  }

  predicate IsDram(s: State, tag: nat) {
    PageNumber(tag, s.ptt.pageBlocks) in s.ptt.pages
  }

  // ----- entry transitions -----

  function Setup(s: State, tag: nat, base: nat, st: EntryState, move: bool): (r: Outcome<(State, nat)>)
    ensures r.Ok? ==> r.value.1 < |r.value.0.att.entries|
  {
    (:- Assert(st == Dirty || st == Stained || st == Loan);
     var s1 :- CopyIf(s, move, base, tag);
     var (att, i) :- TranslationTables.Setup(s1.att, tag, base, st);
     Ok((s1.(att := att), i)))
  }

  function HideClean(s: State, i: nat, move: bool): Outcome<State> {
    (:- Assert(!s.ckpt);
     :- Assert(i < |s.att.entries| && s.att.entries[i].state == Clean);
     var e := s.att.entries[i];
     var s1 :- CopyIf(s, move, e.tag, e.base);
     var nvm :- Backup(s1.nvm, e.base, Backup0);
     var att :- Reset(s1.att, i, e.tag, Hidden);
     Ok(s1.(nvm := nvm, att := att)))
  }

  function ResetClean(s: State, i: nat, move: bool): Outcome<(State, nat)> {
    (:- Assert(s.ckpt);
     :- Assert(i < |s.att.entries| && s.att.entries[i].state == Clean);
     var e := s.att.entries[i];
     var (dram, base) :- Alloc(s.dram);
     var s1 :- CopyIf(s.(dram := dram), move, base, e.base);
     var nvm :- Backup(s1.nvm, e.base, Backup1);
     var att :- Reset(s1.att, i, base, Temp);
     Ok((s1.(nvm := nvm, att := att), base)))
  }

  function FreeClean(s: State, i: nat): Outcome<State> {
    (:- Assert(i < |s.att.entries| && s.att.entries[i].state == Clean);
     var e := s.att.entries[i];
     var s1 :- if s.ckpt then Swap(s, e.tag, e.base) else Copy(s, e.tag, e.base);
     var nvm :- Backup(s1.nvm, e.base, if s.ckpt then Backup1 else Backup0);
     var att :- ShiftState(s1.att, i, Free);
     Ok(s1.(nvm := nvm, att := att)))
  }

  function DirtyStained(s: State, i: nat, move: bool): Outcome<(State, nat)> {
    (:- Assert(!s.ckpt);
     :- Assert(i < |s.att.entries| && s.att.entries[i].state == Stained);
     var e := s.att.entries[i];
     var (nvm, base) :- Alloc(s.nvm);
     var s1 :- CopyIf(s.(nvm := nvm), move, base, e.base);
     var dram :- Release(s1.dram, e.base, InUse);
     var att :- Reset(s1.att, i, base, Dirty);
     Ok((s1.(dram := dram, att := att), base)))
  }

  function FreeLoan(s: State, i: nat, move: bool): Outcome<State> {
    (:- Assert(!s.ckpt);
     :- Assert(i < |s.att.entries| && s.att.entries[i].state == Loan);
     var e := s.att.entries[i];
     :- Assert(move ==> IsDram(s, e.tag));
     var s1 :- CopyIf(s, move, e.tag, e.base);
     var dram :- Release(s1.dram, e.base, InUse);
     var att :- ShiftState(s1.att, i, Free);
     Ok(s1.(dram := dram, att := att)))
  }

  function HideTemp(s: State, i: nat, move: bool): Outcome<State> {
    (:- Assert(!s.ckpt);
     :- Assert(i < |s.att.entries| && s.att.entries[i].state == Temp);
     var e := s.att.entries[i];
     :- Assert(move ==> !IsDram(s, e.tag));
     var s1 :- CopyIf(s, move, e.tag, e.base);
     var dram :- Release(s1.dram, e.base, InUse);
     var att :- Reset(s1.att, i, e.tag, Hidden);
     Ok(s1.(dram := dram, att := att)))
  }

  // ----- loads -----

  /** LoadAddr: returns the machine block holding physical block `tag`. */
  function LoadBlock(s: State, tag: nat): Outcome<(State, nat)> {
    var (att, hit) :- Lookup(s.att, tag);
    if hit.Some? then
      var base := att.entries[hit.value].base;
      var att1 :- AddRead(att, hit.value);
      Ok((s.(att := att1), base))
    else
      var page := PageNumber(tag, s.ptt.pageBlocks);
      if page !in s.ptt.pages then Ok((s.(att := att), tag))
      else
        var ptt :- AddPageRead(s.ptt, s.ptt.pages[page].base);
        Ok((s.(att := att, ptt := ptt), PageTranslate(tag, s.ptt.pages[page].base, s.ptt.pageBlocks)))
  }

  /** Block `tag` inside the page whose frame is page number `base`. */
  function PageTranslate(tag: nat, base: nat, pageBlocks: Positive): nat {
    FirstBlock(base, pageBlocks) + tag % pageBlocks
  }

  // ----- stores -----

  function Hit(s: State): State {
    s.(stats := s.stats.(attHits := s.stats.attHits + 1))
  }

  function Miss(s: State): State {
    s.(stats := s.stats.(attMisses := s.stats.attMisses + 1))
  }

  /** While checkpointing, make room for a new entry by evicting a clean one. */
  function EvictClean(s: State): Outcome<State> {
    (:- Assert(|s.att.queues| == 4);
     if Queue(s.att, Free) == [] then
       :- Assert(Queue(s.att, Clean) != []);
       var s1 :- FreeClean(s, Queue(s.att, Clean)[0]);
       Ok(Miss(s1))
     else Ok(Hit(s)))
  }

  /** While running, loans are revoked before clean entries are evicted. */
  function EvictAny(s: State): Outcome<State> {
    (:- Assert(|s.att.queues| == 4);
     if Queue(s.att, Free) == [] then
       if Queue(s.att, Loan) != [] then
         var s1 :- FreeLoan(s, Queue(s.att, Loan)[0], true);
         Ok(Miss(s1))
       else
         :- Assert(Queue(s.att, Clean) != []);
         var s1 :- FreeClean(s, Queue(s.att, Clean)[0]);
         Ok(Miss(s1))
     else Ok(Hit(s)))
  }

  function DramStore(s: State, tag: nat, full: bool): Outcome<(State, nat)> {
    var (att, hit) :- Lookup(s.att, tag);
    var s1 := s.(att := att);
    if hit.Some? then
      var base := att.entries[hit.value].base;
      if s1.ckpt then Ok((Hit(s1), base))
      else
        var s2 :- FreeLoan(Hit(s1), hit.value, !full);
        Ok((s2, tag))
    else if s1.ckpt then
      var s2 :- EvictClean(s1);
      var (dram, base) :- Alloc(s2.dram);
      var (s3, _) :- Setup(s2.(dram := dram), tag, base, Loan, !full);
      Ok((s3, base))
    else
      Ok((s1.(stats := s1.stats.(dramHits := s1.stats.dramHits + 1)), tag))
  }

  /** A hit in the running phase: returns the block to write. */
  function NvmHitRunning(s: State, i: nat, tag: nat, full: bool): Outcome<(State, nat)> {
    (:- Assert(i < |s.att.entries|);
     match s.att.entries[i].state
     case Temp =>
       var s1 :- HideTemp(s, i, !full);
       :- Assert(i < |s1.att.entries|);
       Ok((s1, s1.att.entries[i].base))
     case Dirty => Ok((s, s.att.entries[i].base))
     case Hidden => Ok((s, s.att.entries[i].base))
     case Stained => DirtyStained(s, i, !full)
     case _ =>
       var s1 :- HideClean(s, i, !full);
       Ok((s1, tag)))
  }

  function NvmMissRunning(s: State, tag: nat, full: bool): Outcome<(State, nat, nat)> {
    var s1 :- EvictAny(s);
    var (nvm, base) :- Alloc(s1.nvm);
    var (s2, i) :- Setup(s1.(nvm := nvm), tag, base, Dirty, !full);
    Ok((s2, i, base))
  }

  function NvmHitCkpt(s: State, i: nat, full: bool): Outcome<(State, nat)> {
    (:- Assert(i < |s.att.entries|);
     var e := s.att.entries[i];
     if e.state == Temp || e.state == Stained then Ok((s, e.base))
     else ResetClean(s, i, !full))
  }

  function NvmMissCkpt(s: State, tag: nat, full: bool): Outcome<(State, nat, nat)> {
    var s1 :- EvictClean(s);
    var (dram, base) :- Alloc(s1.dram);
    var (s2, i) :- Setup(s1.(dram := dram), tag, base, Stained, !full);
    Ok((s2, i, base))
  }

  function NvmStore(s: State, tag: nat, full: bool): Outcome<(State, nat)> {
    var (att, hit) :- Lookup(s.att, tag);
    var s1 := s.(att := att);
    if hit.Some? then
      var i := hit.value;
      var (s2, base) :- if s1.ckpt then NvmHitCkpt(Hit(s1), i, full) else NvmHitRunning(Hit(s1), i, tag, full);
      var att2 :- AddWrite(s2.att, i);
      Ok((s2.(att := att2), base))
    else
      var (s2, i, base) :- if s1.ckpt then NvmMissCkpt(s1, tag, full) else NvmMissRunning(s1, tag, full);
      var att2 :- AddWrite(s2.att, i);
      Ok((s2.(att := att2), base))
  }

  /** Whether a store may go ahead. */
  function Probe(s: State, tag: nat): Control
    requires |s.att.queues| == 4
  {
    var full := Queue(s.att, Free) == [] && Queue(s.att, Clean) == [];
    if IsDram(s, tag) then
      if s.ckpt && tag !in s.att.index && full then WaitCkpt else RegWrite
    else if tag !in s.att.index then
      if s.ckpt then (if full then WaitCkpt else RegWrite)
      else if |Queue(s.att, Dirty)| == |s.att.entries| || s.ptt.dirty >= s.ptt.length then NewEpoch
      else RegWrite
    else RegWrite
  }

  /** Probe as the source has it: the table is asked for the byte address itself, not for its tag. */
  function LiteralProbe(s: State, addr: nat): Control
    requires |s.att.queues| == 4
  {
    var full := Queue(s.att, Free) == [] && Queue(s.att, Clean) == [];
    if IsDram(s, addr / s.blockSize) then
      if s.ckpt && addr !in s.att.index && full then WaitCkpt else RegWrite
    else if addr !in s.att.index then
      if s.ckpt then (if full then WaitCkpt else RegWrite)
      else if |Queue(s.att, Dirty)| == |s.att.entries| || s.ptt.dirty >= s.ptt.length then NewEpoch
      else RegWrite
    else RegWrite
  }

  /** There is an entry for the store to block `x`, or it needs none: a hit, a free or clean entry, or,
      while running, a loan to revoke or a page in DRAM to write in place. */
  predicate HasRoom(s: State, x: nat)
    requires |s.att.queues| == 4
  {
    || x in s.att.index || Queue(s.att, Free) != [] || Queue(s.att, Clean) != []
    || (!s.ckpt && (IsDram(s, x) || Queue(s.att, Loan) != []))
  }

  /** StoreAddr's first part: count the store, and the write of a page in DRAM; says whether it is in DRAM. */
  function RouteStore(s: State, tag: nat): Outcome<(State, bool)> {
    (:- Assert(tag < s.phyBlocks);
     var page := PageNumber(tag, s.ptt.pageBlocks);
     if page !in s.ptt.pages then
       Ok((s.(stats := s.stats.(nvmWrites := s.stats.nvmWrites + 1)), false))
     else
       var ptt :- RecordWrite(s.ptt, s.ptt.pages[page].base);
       Ok((s.(ptt := ptt, stats := s.stats.(dramWrites := s.stats.dramWrites + 1)), true)))
  }

  /** StoreAddr: returns the machine block the client then writes. */
  function StoreBlock(s: State, tag: nat, full: bool): Outcome<(State, nat)> {
    var (m, dram) :- RouteStore(s, tag);
    if dram then DramStore(m, tag, full) else NvmStore(m, tag, full)
  }

  // ----- checkpointing -----

  /** DirtyCleaner::Visit */
  function CleanEntry(s: State, i: nat): Outcome<State> {
    (:- Assert(i < |s.att.entries|);
     var s1 :- match s.att.entries[i].state
       case Stained => (var (s2, _) :- DirtyStained(s, i, true); Ok(s2))
       case Temp => HideTemp(s, i, true)
       case _ => Ok(s);
     :- Assert(i < |s1.att.entries|);
     match s1.att.entries[i].state
     case Dirty => (var att :- ShiftState(s1.att, i, Clean); Ok(s1.(att := att)))
     case Hidden => (var att :- ShiftState(s1.att, i, Free); Ok(s1.(att := att)))
     case _ => Ok(s1))
  }

  /** The walk visits the entries in queue order. */
  function CleanEntries(s: State, q: seq<nat>): Outcome<State>
    decreases |q|
  {
    if q == [] then Ok(s)
    else
      var s1 :- CleanEntry(s, q[0]);
      CleanEntries(s1, q[1..])
  }

  function BeginCheckpointing(s: State): Outcome<State> {
    (:- Assert(!s.ckpt);
     :- Assert(|s.att.queues| == 4);
     var s1 :- CleanEntries(s, Queue(s.att, Dirty));
     :- Assert(|s1.att.queues| == 4);
     :- Assert(|Queue(s1.att, Clean)| + |Queue(s1.att, Free)| == |s1.att.entries|);
     var ptt :- Clear(s1.ptt);
     Ok(s1.(ckpt := true, att := ClearStats(s1.att), ptt := ptt)))
  }

  function FinishCheckpointing(s: State): Outcome<State> {
    (:- Assert(s.ckpt);
     var nvm :- ClearBackup(s.nvm);
     Ok(s.(nvm := nvm, ckpt := false)))
  }

  // ----- migration -----

  /** Discard of an entry held in `vb`. */
  function DiscardNvm(s: State, i: nat): Outcome<State> {
    (:- Assert(!s.ckpt);
     :- Assert(i < |s.att.entries|);
     var nvm :- Release(s.nvm, s.att.entries[i].base, InUse);
     var att :- ShiftState(s.att, i, Free);
     Ok(s.(nvm := nvm, att := att)))
  }

  function DiscardDram(s: State, i: nat): Outcome<State> {
    (:- Assert(!s.ckpt);
     :- Assert(i < |s.att.entries|);
     var dram :- Release(s.dram, s.att.entries[i].base, InUse);
     var att :- ShiftState(s.att, i, Free);
     Ok(s.(dram := dram, att := att)))
  }

  /** MigrateNVM's switch: bring the block of entry `i` home and free the entry. */
  function SendHome(s: State, i: nat): Outcome<State> {
    (:- Assert(i < |s.att.entries|);
     var e := s.att.entries[i];
     match e.state
     case Clean => (var s2 :- Copy(s, e.tag, e.base); DiscardNvm(s2, i))
     case Dirty => (var s2 :- Copy(s, e.tag, e.base); DiscardNvm(s2, i))
     case Stained => (var s2 :- Copy(s, e.tag, e.base); DiscardDram(s2, i))
     case Temp => (var s2 :- Copy(s, e.tag, e.base); DiscardDram(s2, i))
     case Loan => Abort
     case Free => Abort
     case Hidden => (var att :- ShiftState(s.att, i, Free); Ok(s.(att := att))))
  }

  /** One iteration of MigrateNVM's loop. */
  function EvictBlock(s: State, tag: nat): Outcome<State> {
    var (att, hit) :- Lookup(s.att, tag);
    var s1 := s.(att := att);
    if hit.None? then Ok(s1) else SendHome(s1, hit.value)
  }

  /** Blocks `tag` up to the end of the page, `left` of them. */
  function EvictBlocks(s: State, tag: nat, left: nat): Outcome<State>
    decreases left
  {
    if left == 0 then Ok(s)
    else
      var s1 :- EvictBlock(s, tag);
      EvictBlocks(s1, tag + 1, left - 1)
  }

  function MigrateNvm(s: State, n: NvmStats): Outcome<State> {
    var k := s.ptt.pageBlocks;
    var s1 :- EvictBlocks(s, FirstBlock(n.page, k), k);
    var ptt :- SetupPage(s1.ptt, n.page, if 2 * n.dirtyBlocks > k then CleanStatic else CleanDirect);
    Ok(s1.(ptt := ptt, toDram := s1.toDram + 1))
  }

  function MigrateDram(s: State, d: DramStats): Outcome<State> {
    var ptt :- FreePage(s.ptt, d.page);
    Ok(s.(ptt := ptt))
  }

  /** LoanRevoker over the Loan queue. */
  function RevokeLoans(s: State, q: seq<nat>): Outcome<State>
    decreases |q|
  {
    if q == [] then Ok(s)
    else
      var s1 :- FreeLoan(s, q[0], true);
      RevokeLoans(s1, q[1..])
  }

  /** How MigratePages' first loop ends: return at once, or go on, perhaps with a page in hand. */
  datatype Exit = Return | Proceed(ready: Option<DramStats>)

  function ExchangePages(s: State, dirtyMin: int): Outcome<(State, Exit)>
    decreases |s.ptt.nvmHeap|
  {
    var x :- ExtractNvm(s.ptt);
    if x.None? then Ok((s, Proceed(None)))
    else
      var (ptt, n) := x.value;
      var s1 := s.(ptt := ptt);
      if n.dirtyBlocks < dirtyMin then Ok((s1, Proceed(None)))
      else if |s1.ptt.pages| == s1.ptt.capacity then
        var y :- ExtractDram(s1.ptt);
        if y.None? then Ok((s1, Return))
        else
          var (ptt2, d) := y.value;
          var s2 := s1.(ptt := ptt2);
          if d.writes > 0 then Ok((s2, Proceed(Some(d))))
          else
            var s3 :- MigrateDram(s2, d);
            var s4 :- MigrateNvm(s3, n);
            :- Assert(|s4.ptt.nvmHeap| < |s.ptt.nvmHeap|);
            ExchangePages(s4, dirtyMin)
      else
        var s2 :- MigrateNvm(s1, n);
        :- Assert(|s2.ptt.nvmHeap| < |s.ptt.nvmHeap|);
        ExchangePages(s2, dirtyMin)
  }

  /** The do-while loop that returns written pages to NVM. */
  function ReturnPages(s: State, d: DramStats, limit: int, writeMax: int): Outcome<State>
    decreases |s.ptt.dramHeap|
  {
    if d.writes == 0 then ReturnMore(s, limit, writeMax)
    else if d.writes > writeMax then Ok(s)
    else
      var s1 :- MigrateDram(s, d);
      :- Assert(|s1.ptt.dramHeap| <= |s.ptt.dramHeap|);
      ReturnMore(s1.(toNvm := s1.toNvm + 1), limit - 1, writeMax)
  }

  function ReturnMore(s: State, limit: int, writeMax: int): Outcome<State>
    decreases |s.ptt.dramHeap|, 0
  {
    if limit == 0 then Ok(s)
    else
      var y :- ExtractDram(s.ptt);
      if y.None? then Ok(s)
      else ReturnPages(s.(ptt := y.value.0), y.value.1, limit, writeMax)
  }

  /** The do-while loop when no page is in hand yet. */
  function ReturnFirst(s: State, limit: int, writeMax: int): Outcome<State> {
    var y :- ExtractDram(s.ptt);
    if y.None? then Ok(s) else ReturnPages(s.(ptt := y.value.0), y.value.1, limit, writeMax)
  }

  /** From the end of the exchange loop to the end of MigratePages. */
  function AfterExchange(s: State, exit: Exit, limit: int, writeMax: int): Outcome<State> {
    if exit.Return? then Ok(s)
    else if exit.ready.Some? then ReturnPages(s, exit.ready.value, limit, writeMax)
    else ReturnFirst(s, limit, writeMax)
  }

  /** Revoke the loans and fill the two heaps. */
  ghost function MigrateInput(s: State, nvmOrder: seq<nat>, dramOrder: seq<nat>): Outcome<State> {
    (:- Assert(!s.ckpt);
     :- Assert(|s.att.queues| == 4);
     var s1 :- RevokeLoans(s, Queue(s.att, Loan));
     :- Assert(|s1.att.queues| == 4 && Queue(s1.att, Loan) == []);
     var ptt :- InputBlocks(s1.ptt, s1.att.entries, nvmOrder, dramOrder);
     Ok(s1.(ptt := ptt)))
  }

  /** The two loops, with the ratio thresholds turned into block counts. */
  function MigrateLoops(s: State, dirtyMin: int, writeMax: int): Outcome<State> {
    var (s1, exit) :- ExchangePages(s, dirtyMin);
    AfterExchange(s1, exit, s1.ptt.capacity - s1.ptt.length, writeMax)
  }

  ghost function MigratePages(s: State, dr: real, wr: real, nvmOrder: seq<nat>, dramOrder: seq<nat>): Outcome<State> {
    var s1 :- MigrateInput(s, nvmOrder, dramOrder);
    MigrateLoops(s1, CountFrom(dr, s.ptt.pageBlocks), CountUpTo(wr, s.ptt.pageBlocks))
  }
}
