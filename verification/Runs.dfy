/** Whole runs of the controller under its driver, against a flat memory. */
module Runs {
  import opened Outcomes
  import opened VersionBuffers
  import opened TranslationTables
  import opened PageTables
  import opened PageTableInvariants
  import opened Controllers
  import opened ControllerInvariants
  import opened Translation
  import opened EntryMoves
  import opened Retention
  import opened StoreStats
  import opened Stores
  import opened Checkpoints
  import opened Migration

  // ----- bytes -----

  /** The block that byte address `addr` falls in, and the offset in it. */
  function BlockOf(addr: nat, size: Positive): nat {
    addr / size
  }

  function OffsetOf(addr: nat, size: Positive): nat {
    addr % size
  }

  /** CheckValid: the access stays within one block. */
  predicate CheckValid(addr: nat, length: nat, size: Positive) {
    addr / size == (addr + length - 1) / size
  }

  predicate FullBlock(addr: nat, length: nat, size: Positive) {
    OffsetOf(addr, size) == 0 && length == size
  }

  /** Overwrites part of a block. */
  function Patch(b: Block, offset: nat, data: seq<Byte>): (r: Block)
    requires offset + |data| <= |b|
    ensures |r| == |b|
    ensures forall i :: 0 <= i < |b| ==> r[i] == if offset <= i < offset + |data| then data[i - offset] else b[i]
  {
    b[..offset] + data + b[offset + |data|..]
  }

  lemma InBlock(addr: nat, length: nat, size: Positive)
    requires CheckValid(addr, length, size)
    ensures OffsetOf(addr, size) + length <= size
  {
    assert addr == (addr / size) * size + addr % size;
    if length > 0 {
      var last := addr + length - 1;
      assert last == (last / size) * size + last % size;
    }
  }

  // ----- steps -----

  datatype Op =
    | Store(addr: nat, data: seq<Byte>)
    | Load(addr: nat)
    | Migrate(dr: real, wr: real, nvmOrder: seq<nat>, dramOrder: seq<nat>)
    | Begin
    | Finish

  /** A client write: StoreAddr, then the bytes go to the returned machine block. */
  function StoreBytes(s: State, addr: nat, data: seq<Byte>): Outcome<State> {
    var x, off := BlockOf(addr, s.blockSize), OffsetOf(addr, s.blockSize);
    :- Assert(CheckValid(addr, |data|, s.blockSize));
    var (t, to) :- StoreBlock(s, x, FullBlock(addr, |data|, s.blockSize));
    :- Assert(to < |t.mem| && off + |data| <= |t.mem[to]|);
    Ok(WriteBlock(t, to, Patch(t.mem[to], off, data)))
  }

  /** A client read of one byte. */
  function LoadByte(s: State, addr: nat): Outcome<(State, Byte)> {
    var x, off := BlockOf(addr, s.blockSize), OffsetOf(addr, s.blockSize);
    :- Assert(x < s.phyBlocks);
    var (t, a) :- LoadBlock(s, x);
    :- Assert(a < |t.mem| && off < |t.mem[a]|);
    Ok((t, t.mem[a][off]))
  }

  ghost function Step(s: State, op: Op): Outcome<State> {
    match op
    case Store(addr, data) => StoreBytes(s, addr, data)
    case Load(addr) => (var (t, _) :- LoadByte(s, addr); Ok(t))
    case Migrate(dr, wr, nvmOrder, dramOrder) => MigratePages(s, dr, wr, nvmOrder, dramOrder)
    case Begin => BeginCheckpointing(s)
    case Finish => FinishCheckpointing(s)
  }

  /** What each call needs of the state it is made in; a store needs room, which Probe looks for. */
  ghost predicate Allowed(s: State, op: Op) {
    match op
    case Store(addr, data) =>
      && CheckValid(addr, |data|, s.blockSize) && BlockOf(addr, s.blockSize) < s.phyBlocks
      && |s.att.queues| == 4 && HasRoom(s, BlockOf(addr, s.blockSize))
    case Load(addr) => BlockOf(addr, s.blockSize) < s.phyBlocks
    case Migrate(dr, wr, nvmOrder, dramOrder) => !s.ckpt && !s.ptt.nvmFilled && Orders(s, nvmOrder, dramOrder)
    case Begin => !s.ckpt && |s.att.queues| == 4 && Queue(s.att, Loan) == []
    case Finish => s.ckpt
  }

  /** The step succeeds: no assertion of the source fails on the way to `t`. */
  ghost predicate StepYields(s: State, op: Op, t: State) {
    forall u {:trigger Unlocked(u)} :: Unlocked(u) ==> Step(s, op) == Ok(t)
  }

  // ----- the reference: a flat memory and the images taken of it -----

  function FlatStore(flat: seq<Block>, addr: nat, data: seq<Byte>, size: Positive): (r: seq<Block>)
    ensures |r| == |flat|
  {
    var x, off := BlockOf(addr, size), OffsetOf(addr, size);
    if x < |flat| && off + |data| <= |flat[x]| then flat[x := Patch(flat[x], off, data)] else flat
  }

  /** What a run should show: the flat memory, the images taken at the last two begins with the
      blocks they still cover, and the stores of the current epoch. */
  datatype History = History(flat: seq<Block>, image: seq<Block>, covered: set<nat>,
                             prevImage: seq<Block>, prevCovered: set<nat>, epochNvm: nat, epochDram: nat)

  /** The blocks of `dom` whose page is not in DRAM. */
  ghost function StillOut(dom: set<nat>, t: State): (r: set<nat>)
    ensures forall g :: g in r <==> g in dom && !IsDram(t, g)
  {
    set g | g in dom && !IsDram(t, g)
  }

  ghost function Advance(h: History, s: State, op: Op, t: State): History {
    match op
    case Store(addr, data) =>
      var dram := IsDram(s, BlockOf(addr, s.blockSize));
      h.(flat := FlatStore(h.flat, addr, data, s.blockSize),
         epochNvm := h.epochNvm + Bit(!dram), epochDram := h.epochDram + Bit(dram))
    case Load(addr) => h
    case Migrate(_, _, _, _) =>
      h.(covered := StillOut(h.covered, t), prevCovered := StillOut(h.prevCovered, t))
    case Begin => History(h.flat, h.flat, NvmBlocks(t), h.image, h.covered, 0, 0)
    case Finish => h.(prevCovered := {})
  }

  /** The state agrees with the history. */
  ghost predicate Good(s: State, h: History) {
    && Inv(s) && Shows(s, h.flat)
    && Retained(s, h.image, h.covered, Current)
    && (s.ckpt ==> Retained(s, h.prevImage, h.prevCovered, Previous))
    && (s.ptt.nvmFilled || (Idle(s.ptt) && Quiet(s) && DramWrites(s.ptt) == h.epochDram))
    && (s.ckpt ==> !s.ptt.nvmFilled)
    && NvmWrites(s) == h.epochNvm
    && s.stats.attHits + s.stats.attMisses + s.stats.dramHits == s.stats.nvmWrites + s.stats.dramWrites
  }

  // ----- one step -----

  lemma FollowsShows(s: State, t: State, x: nat, flat: seq<Block>, flat': seq<Block>)
    requires Shows(s, flat) && Follows(s, t, x) && |flat'| == |flat|
    requires forall g :: 0 <= g < |flat| && g != x ==> flat'[g] == flat[g]
    requires x < s.phyBlocks ==> Place(t, x).base < |t.mem| && View(t, x) == flat'[x]
    ensures Shows(t, flat')
  {
    forall g ensures ShowsAt(t, flat', g) {
      assert ShowsAt(s, flat, g);
      if g != x {
        assert SameView(s, t, g);
      }
    }
  }

  /** A step that keeps phase and pages. */
  lemma GoodFollows(s: State, t: State, x: nat, h: History, k: History)
    requires Good(s, h) && Follows(s, t, x) && Shows(t, k.flat)
    requires k == h.(flat := k.flat, epochNvm := k.epochNvm, epochDram := k.epochDram)
    requires NvmWrites(t) == k.epochNvm && (DramWrites(s.ptt) == h.epochDram ==> DramWrites(t.ptt) == k.epochDram)
    requires t.stats.attHits + t.stats.attMisses + t.stats.dramHits == t.stats.nvmWrites + t.stats.dramWrites
    ensures Good(t, k)
  {
  }

  /** The byte read at `addr` is `b`. */
  ghost predicate ReadYields(s: State, addr: nat, t: State, b: Byte) {
    forall u {:trigger Unlocked(u)} :: Unlocked(u) ==> LoadByte(s, addr) == Ok((t, b))
  }

  lemma ReadUnfold(s: State, addr: nat, t: State, a: nat)
    requires var x, off := BlockOf(addr, s.blockSize), OffsetOf(addr, s.blockSize);
      && x < s.phyBlocks && LoadYields(s, x, t, a) && a < |t.mem| && off < |t.mem[a]|
    ensures ReadYields(s, addr, t, t.mem[a][OffsetOf(addr, s.blockSize)]) && StepYields(s, Load(addr), t)
  {
    assert Unlocked(0);
  }

  /** A load returns the byte of the flat memory and changes nothing a client can see. */
  lemma LoadOk(s: State, h: History, addr: nat) returns (t: State)
    requires Good(s, h) && Allowed(s, Load(addr))
    ensures StepYields(s, Load(addr), t) && Good(t, Advance(h, s, Load(addr), t))
    ensures var x, off := BlockOf(addr, s.blockSize), OffsetOf(addr, s.blockSize);
      x < |h.flat| && off < |h.flat[x]| && ReadYields(s, addr, t, h.flat[x][off])
    ensures Untouched(s, t)
  {
    var x := BlockOf(addr, s.blockSize);
    t := LoadBlockOk(s, x);
    assert ShowsAt(s, h.flat, x);
    ReadUnfold(s, addr, t, Place(s, x).base);
    FollowsShows(s, t, s.phyBlocks, h.flat, h.flat);
    GoodFollows(s, t, s.phyBlocks, h, h);
  }

  lemma StoreUnfold(s: State, addr: nat, data: seq<Byte>, t: State, to: nat)
    requires CheckValid(addr, |data|, s.blockSize)
    requires StoreYields(s, BlockOf(addr, s.blockSize), FullBlock(addr, |data|, s.blockSize), t, to)
    requires to < |t.mem| && OffsetOf(addr, s.blockSize) + |data| <= |t.mem[to]|
    ensures StepYields(s, Store(addr, data),
                       WriteBlock(t, to, Patch(t.mem[to], OffsetOf(addr, s.blockSize), data)))
  {
    assert Unlocked(0);
  }

  /** Patching the stored block gives the flat memory's block, even when a full store skipped the copy. */
  lemma PatchedBlock(b: Block, c: Block, off: nat, data: seq<Byte>, full: bool)
    requires |b| == |c| && off + |data| <= |b|
    requires full ==> off == 0 && |data| == |b|
    requires !full ==> b == c
    ensures Patch(b, off, data) == Patch(c, off, data)
  {
  }

  /** A store that has room writes exactly its bytes of the flat memory. */
  lemma StoreOk(s: State, h: History, addr: nat, data: seq<Byte>) returns (u: State)
    requires Good(s, h) && Allowed(s, Store(addr, data))
    ensures StepYields(s, Store(addr, data), u) && Good(u, Advance(h, s, Store(addr, data), u))
    ensures Follows(s, u, BlockOf(addr, s.blockSize))
    ensures Booked(s, u.stats, BlockOf(addr, s.blockSize))
  {
    var x, off := BlockOf(addr, s.blockSize), OffsetOf(addr, s.blockSize);
    var full := FullBlock(addr, |data|, s.blockSize);
    InBlock(addr, |data|, s.blockSize);
    var t, to := StoreBlockOk(s, x, full);
    PlaceInside(t, x);
    var b := Patch(t.mem[to], off, data);
    u := WriteBlock(t, to, b);
    StoreUnfold(s, addr, data, t, to);
    WriteBlockOk(t, x, b);
    FollowsTrans(s, t, u, x);
    StoreGood(s, t, u, h, addr, data, to);
  }

  lemma StoreGood(s: State, t: State, u: State, h: History, addr: nat, data: seq<Byte>, to: nat)
    requires Good(s, h) && Allowed(s, Store(addr, data))
    requires var x, full := BlockOf(addr, s.blockSize), FullBlock(addr, |data|, s.blockSize);
      && Stored(s, t, x, to, full) && Follows(s, u, x)
      && NvmWrites(t) == NvmWrites(s) + Bit(!IsDram(s, x))
      && DramWrites(t.ptt) == DramWrites(s.ptt) + Bit(IsDram(s, x))
      && Booked(s, t.stats, x)
      && to < |t.mem| && OffsetOf(addr, s.blockSize) + |data| <= |t.mem[to]|
      && Place(u, x).base < |u.mem| && u == t.(mem := u.mem) && NvmWrites(u) == NvmWrites(t)
      && View(u, x) == Patch(t.mem[to], OffsetOf(addr, s.blockSize), data)
    ensures Good(u, Advance(h, s, Store(addr, data), u))
  {
    var x, off := BlockOf(addr, s.blockSize), OffsetOf(addr, s.blockSize);
    var full := FullBlock(addr, |data|, s.blockSize);
    assert ShowsAt(s, h.flat, x) && SameView(s, s, x);
    SizedBlock(s, Place(s, x).base);
    SizedBlock(t, to);
    PatchedBlock(t.mem[to], h.flat[x], off, data, full);
    var flat := FlatStore(h.flat, addr, data, s.blockSize);
    FollowsShows(s, u, x, h.flat, flat);
    GoodFollows(s, u, x, h, Advance(h, s, Store(addr, data), u));
  }

  lemma SizedBlock(s: State, a: nat)
    requires Inv(s) && a < |s.mem|
    ensures |s.mem[a]| == s.blockSize
  {
  }

  lemma RetainedSubset(s: State, image: seq<Block>, dom: set<nat>, part: set<nat>, age: Age)
    requires Retained(s, image, dom, age) && part <= dom
    ensures Retained(s, image, part, age)
  {
    var loc :| Held(s, image, dom, loc, age);
    forall g ensures HeldAt(s, image, part, loc, age, g) {
      assert HeldAt(s, image, dom, loc, age, g);
    }
    forall g, h ensures DistinctAt(part, loc, g, h) {
      assert DistinctAt(dom, loc, g, h);
    }
    assert Held(s, image, part, loc, age);
  }

  lemma MigrateStepUnfold(s: State, op: Op, t: State)
    requires op.Migrate? && MigrateYields(s, op.dr, op.wr, op.nvmOrder, op.dramOrder, t)
    ensures StepYields(s, op, t)
  {
    assert Unlocked(0);
  }

  /** Migration moves pages and no block's value; images of pages still in NVM stay retained. */
  lemma MigrateOk(s: State, h: History, op: Op) returns (t: State)
    requires Good(s, h) && op.Migrate? && Allowed(s, op)
    ensures StepYields(s, op, t) && Migrated(s, t) && Good(t, Advance(h, s, op, t))
  {
    t := MigratePagesOk(s, op.dr, op.wr, op.nvmOrder, op.dramOrder);
    MigrateStepUnfold(s, op, t);
    MigrateGood(s, t, h, op);
  }

  lemma MigrateGood(s: State, t: State, h: History, op: Op)
    requires Good(s, h) && op.Migrate? && !s.ckpt && Migrated(s, t)
    ensures Good(t, Advance(h, s, op, t))
  {
    forall g ensures ShowsAt(t, h.flat, g) {
      assert ShowsAt(s, h.flat, g) && SameView(s, t, g);
    }
    var part := StillOut(h.covered, t);
    RetainedSubset(s, h.image, h.covered, part, Current);
    assert Outside(part, t);
  }

  ghost predicate BeginYields(s: State, t: State) {
    forall u {:trigger Unlocked(u)} :: Unlocked(u) ==> BeginCheckpointing(s) == Ok(t)
  }

  lemma BeginResult(s: State, flat: seq<Block>) returns (t: State)
    requires Inv(s) && !s.ckpt && Queue(s.att, Loan) == [] && Shows(s, flat)
    ensures BeginYields(s, t) && Begun(s, t, flat)
  {
    BeginOk(s, flat);
    t := BeginCheckpointing(s).value;
  }

  lemma BeginStepUnfold(s: State, t: State)
    requires BeginYields(s, t)
    ensures StepYields(s, Begin, t)
  {
    assert Unlocked(0);
  }

  lemma BeginStepOk(s: State, h: History) returns (t: State)
    requires Good(s, h) && Allowed(s, Begin)
    ensures StepYields(s, Begin, t) && Begun(s, t, h.flat) && Good(t, Advance(h, s, Begin, t))
  {
    t := BeginResult(s, h.flat);
    BeginStepUnfold(s, t);
  }

  lemma FinishStepOk(s: State, h: History) returns (t: State)
    requires Good(s, h) && Allowed(s, Finish)
    ensures StepYields(s, Finish, t) && Finished(s, t) && Good(t, Advance(h, s, Finish, t))
  {
    FinishOk(s);
    t := FinishCheckpointing(s).value;
    forall g ensures ShowsAt(t, h.flat, g) {
      assert ShowsAt(s, h.flat, g) && SameView(s, t, g);
    }
    forall j ensures QuietAt(t, j) {
      assert QuietAt(s, j);
    }
  }

  /** Backups survive every step but a finish, which frees the old and ages the young. */
  ghost predicate BackupStepped(s: State, op: Op, t: State) {
    if op == Finish then
      t.nvm.free == s.nvm.free + s.nvm.backup0 && t.nvm.backup0 == s.nvm.backup1 && t.nvm.backup1 == {}
    else s.nvm.backup0 <= t.nvm.backup0 && s.nvm.backup1 <= t.nvm.backup1
  }

  /** How the counters move: stores are booked, migration adds the epoch's stores to the totals. */
  ghost predicate Counted(s: State, op: Op, t: State) {
    match op
    case Store(addr, _) =>
      && Booked(s, t.stats, BlockOf(addr, s.blockSize))
      && t.ptt.nvmFilled == s.ptt.nvmFilled && t.ptt.totalNvm == s.ptt.totalNvm && t.ptt.totalDram == s.ptt.totalDram
    case Migrate(_, _, _, _) =>
      && t.stats == s.stats && t.ptt.nvmFilled && t.ptt.totalNvm == s.ptt.totalNvm + NvmWrites(s)
      && t.ptt.totalDram == s.ptt.totalDram + DramWrites(s.ptt)
    case Begin =>
      && t.stats == s.stats && !t.ptt.nvmFilled
      && t.ptt.totalNvm == s.ptt.totalNvm && t.ptt.totalDram == s.ptt.totalDram
    case _ =>
      && t.stats == s.stats && t.ptt.nvmFilled == s.ptt.nvmFilled
      && t.ptt.totalNvm == s.ptt.totalNvm && t.ptt.totalDram == s.ptt.totalDram
  }

  /** Every allowed step succeeds and keeps state and history in agreement. */
  lemma StepOk(s: State, h: History, op: Op) returns (t: State)
    requires Good(s, h) && Allowed(s, op)
    ensures StepYields(s, op, t) && Good(t, Advance(h, s, op, t))
    ensures BackupStepped(s, op, t) && Counted(s, op, t)
    ensures t.phyBlocks == s.phyBlocks && t.blockSize == s.blockSize && |t.att.entries| == |s.att.entries|
    ensures t.ptt.length == s.ptt.length && (if op.Migrate? then ReturnsFew(s, t) else t.toNvm == s.toNvm)
  {
    match op
    case Store(addr, data) => t := StoreOk(s, h, addr, data);
    case Load(addr) => t := LoadOk(s, h, addr);
    case Migrate(_, _, _, _) => t := MigrateOk(s, h, op);
    case Begin => t := BeginStepOk(s, h);
    case Finish => t := FinishStepOk(s, h);
  }

  // ----- runs -----

  /** A freshly constructed controller; any initial memory of the right shape. */
  ghost predicate Initial(s: State) {
    && s == Init(s.phyBlocks, s.blockSize, |s.att.entries|, s.ptt.pageBlocks, s.ptt.length, s.mem)
    && |s.mem| == s.phyBlocks + 3 * |s.att.entries|
    && forall a :: 0 <= a < |s.mem| ==> |s.mem[a]| == s.blockSize
  }

  ghost function Birth(s: State): History
    requires s.phyBlocks <= |s.mem|
  {
    History(s.mem[..s.phyBlocks], s.mem[..s.phyBlocks], {}, s.mem[..s.phyBlocks], {}, 0, 0)
  }

  lemma InitialOwned(s: State)
    requires Initial(s)
    ensures Owned(s) && Exclusive(s) && (forall g: nat :: Place(s, g) == Mapping(Free, g))
  {
    forall i ensures EntryOk(s, i) && SideOk(s, i) {}
    forall i, j ensures Separate(s, i, j) {}
    forall x ensures SlotOwned(s, x) {}
  }

  lemma InitialInv(s: State)
    requires Initial(s)
    ensures Inv(s) && Idle(s.ptt) && Quiet(s) && DramWrites(s.ptt) == 0 && NvmWrites(s) == 0
  {
    FreshOk(|s.att.entries|);
    EmptyOk(s.ptt.pageBlocks, s.ptt.length);
    EmptyPartition(s.nvm.base, s.nvm.length);
    EmptyPartition(s.dram.base, s.dram.length);
    InitialOwned(s);
    assert EntriesIn(s.att.entries, 0) == {};
    forall j ensures QuietAt(s, j) {}
    ZeroWrites(s.att.entries, |s.att.entries|);
    ZeroSum(DramWritesOf(s.ptt.pages));
  }

  lemma InitialGood(s: State)
    requires Initial(s)
    ensures Good(s, Birth(s))
  {
    InitialInv(s);
    InitialOwned(s);
    var h := Birth(s);
    forall g ensures ShowsAt(s, h.flat, g) {}
    forall g ensures HeldAt(s, h.image, {}, map[], Current, g) {}
    assert Held(s, h.image, {}, map[], Current);
  }
}
