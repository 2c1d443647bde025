/** Checkpoint images: where a retained copy of each block may sit, and what keeps it there. */
module Retention {
  import opened VersionBuffers
  import opened TranslationTables
  import opened Controllers
  import opened ControllerInvariants
  import opened Translation

  /** `Current`: the image of the latest begin. `Previous`: the one before it, until the finish. */
  datatype Age = Current | Previous

  /** Machine block `a` may hold the retained copy of block `g`. */
  ghost predicate SafeFor(s: State, g: nat, a: nat, age: Age) {
    var p := Place(s, g);
    match age
    case Current =>
      (match p.state
       case Clean => a == p.base
       case Temp => At(s.nvm, a, if s.ckpt then s.nvm.backup1 else s.nvm.backup0)
       case Hidden => At(s.nvm, a, if s.ckpt then s.nvm.backup1 else s.nvm.backup0)
       case _ => a == g)
    case Previous =>
      && (a == g || (p.state == Clean && a == p.base) || BackupCell(s, a))
      && (!s.ckpt && (p.state == Temp || p.state == Hidden) ==> a != g)
  }

  /** If `g` is in `dom`, its copy in `image` is intact at `loc[g]`. */
  ghost predicate HeldAt(s: State, image: seq<Block>, dom: set<nat>, loc: map<nat, nat>, age: Age, g: nat) {
    g in dom ==>
      && g < s.phyBlocks && g < |image| && !IsDram(s, g)
      && g in loc && loc[g] < |s.mem| && s.mem[loc[g]] == image[g]
      && SafeFor(s, g, loc[g], age)
  }

  ghost predicate DistinctAt(dom: set<nat>, loc: map<nat, nat>, g: nat, h: nat) {
    g in dom && h in dom && g in loc && h in loc && g != h ==> loc[g] != loc[h]
  }

  ghost predicate Held(s: State, image: seq<Block>, dom: set<nat>, loc: map<nat, nat>, age: Age) {
    && (forall g :: HeldAt(s, image, dom, loc, age, g))
    && (forall g, h :: DistinctAt(dom, loc, g, h))
  }

  ghost predicate Retained(s: State, image: seq<Block>, dom: set<nat>, age: Age) {
    exists loc :: Held(s, image, dom, loc, age)
  }

  /** Whatever image was retained still is. */
  ghost predicate Keeps(s: State, t: State, age: Age) {
    forall image, dom :: Retained(s, image, dom, age) ==> Retained(t, image, dom, age)
  }

  /** A safe place is either the block's own or a backup, so it is clear of everyone else's moves. */
  lemma SafeClear(s: State, g: nat, a: nat, age: Age, x: nat)
    requires Core(s) && g < s.phyBlocks && x < s.phyBlocks && g != x && SafeFor(s, g, a, age)
    ensures a != x && a != Place(s, x).base && !FreeCell(s, a)
  {
    NoAlias(s, g, x);
    NoAlias(s, x, g);
    PlaceInside(s, g);
    PlaceInside(s, x);
    if BackupCell(s, a) {
      BackupApart(s, a);
    } else if a == g {
      OutsideCell(s.nvm, a);
      OutsideCell(s.dram, a);
    }
  }

  lemma BackupApart(s: State, a: nat)
    requires Core(s) && BackupCell(s, a)
    ensures s.phyBlocks <= a < s.dram.base && !FreeCell(s, a)
  {
    assert InOneSet(s.nvm, a - s.nvm.base);
    OutsideCell(s.dram, a);
  }

  /** A move of `x` leaves the copy of any other block where it was. */
  lemma HeldOther(s: State, t: State, x: nat, image: seq<Block>, dom: set<nat>, loc: map<nat, nat>, age: Age, g: nat)
    requires Core(s) && Moves(s, t, x) && x < s.phyBlocks && g != x
    requires HeldAt(s, image, dom, loc, age, g)
    ensures HeldAt(t, image, dom, loc, age, g)
  {
    if g in dom {
      var a := loc[g];
      SafeClear(s, g, a, age, x);
      assert Kept(s, t, x, a);
    }
  }

  /** Every safe place of `x` survives the move unchanged. */
  ghost predicate Stable(s: State, t: State, x: nat, a: nat, age: Age) {
    a < |s.mem| == |t.mem| && SafeFor(s, x, a, age) ==> SafeFor(t, x, a, age) && t.mem[a] == s.mem[a]
  }

  lemma KeepsStable(s: State, t: State, x: nat, age: Age)
    requires Core(s) && Moves(s, t, x) && x < s.phyBlocks
    requires IsDram(s, x) || forall a :: Stable(s, t, x, a, age)
    ensures Keeps(s, t, age)
  {
    forall image, dom | Retained(s, image, dom, age) ensures Retained(t, image, dom, age) {
      var loc :| Held(s, image, dom, loc, age);
      forall g ensures HeldAt(t, image, dom, loc, age, g) {
        assert HeldAt(s, image, dom, loc, age, g);
        if g != x {
          HeldOther(s, t, x, image, dom, loc, age, g);
        } else if x in dom {
          assert Stable(s, t, x, loc[x], age);
        }
      }
      assert Held(t, image, dom, loc, age);
    }
  }

  /** Evicting a clean block: its retained copy moves home; what was at home takes its slot. */
  lemma KeepsExchanged(s: State, t: State, x: nat, age: Age)
    requires Core(s) && Moves(s, t, x) && x < s.phyBlocks && Place(s, x).state == Clean
    requires Place(t, x) == Mapping(Free, x) && Place(s, x).base < |s.mem|
    requires t.mem[x] == s.mem[Place(s, x).base]
    requires age == Previous ==> s.ckpt && t.mem[Place(s, x).base] == s.mem[x] && BackupCell(t, Place(s, x).base)
    ensures Keeps(s, t, age)
  {
    var b := Place(s, x).base;
    PlaceInside(s, x);
    forall image, dom | Retained(s, image, dom, age) ensures Retained(t, image, dom, age) {
      var loc :| Held(s, image, dom, loc, age);
      var a := if x !in loc then x else if loc[x] == b then x else if loc[x] == x then b else loc[x];
      var loc' := loc[x := a];
      forall g ensures HeldAt(t, image, dom, loc', age, g) {
        assert HeldAt(s, image, dom, loc, age, g);
        if g != x {
          HeldOther(s, t, x, image, dom, loc, age, g);
        } else if x in dom {
          if loc[x] != b && loc[x] != x {
            BackupApart(s, loc[x]);
            assert Kept(s, t, x, loc[x]);
          }
        }
      }
      forall g, h ensures DistinctAt(dom, loc', g, h) {
        assert DistinctAt(dom, loc, g, h);
        assert HeldAt(s, image, dom, loc, age, g) && HeldAt(s, image, dom, loc, age, h);
        if g == x && h != x && h in dom {
          SafeClear(s, h, loc[h], age, x);
        } else if h == x && g != x && g in dom {
          SafeClear(s, g, loc[g], age, x);
        }
      }
      assert Held(t, image, dom, loc', age);
    }
  }

  /** The states agree on everything retention depends on. */
  lemma KeepsSame(s: State, t: State, age: Age)
    requires t.mem == s.mem && t.nvm == s.nvm && t.ckpt == s.ckpt && t.phyBlocks == s.phyBlocks
    requires t.ptt.pageBlocks == s.ptt.pageBlocks && t.ptt.pages.Keys == s.ptt.pages.Keys
    requires forall g :: Place(t, g) == Place(s, g)
    ensures Keeps(s, t, age)
  {
    forall image, dom | Retained(s, image, dom, age) ensures Retained(t, image, dom, age) {
      var loc :| Held(s, image, dom, loc, age);
      forall g ensures HeldAt(t, image, dom, loc, age, g) {
        assert HeldAt(s, image, dom, loc, age, g);
      }
      assert Held(t, image, dom, loc, age);
    }
  }

  lemma KeepsTrans(s: State, t: State, u: State, age: Age)
    requires Keeps(s, t, age) && Keeps(t, u, age)
    ensures Keeps(s, u, age)
  {
  }

  /** The transitions that keep a retained copy in place. */
  ghost predicate Gentle(s: State, t: State, x: nat, age: Age)
    requires |s.mem| == |t.mem| && x < |s.mem| && Place(s, x).base < |s.mem|
  {
    var p, q := Place(s, x), Place(t, x);
    || (&& (p.state == Free || p.state == Stained || p.state == Dirty)
        && (q.state == Dirty || q.state == Stained || (q.state == Clean && age == Previous))
        && t.mem[x] == s.mem[x])
    || (&& !s.ckpt && (p.state == Temp || p.state == Hidden)
        && (q.state == Hidden || (q.state == Free && age == Previous)))
    || (&& p.state == Clean && q.state == (if s.ckpt then Temp else Hidden)
        && At(t.nvm, p.base, if s.ckpt then t.nvm.backup1 else t.nvm.backup0)
        && t.mem[p.base] == s.mem[p.base]
        && (age == Previous ==> s.ckpt && t.mem[x] == s.mem[x]))
  }

  lemma KeepsMoved(s: State, t: State, x: nat, age: Age)
    requires Core(s) && Moves(s, t, x) && x < s.phyBlocks && Place(s, x).base < |s.mem|
    requires Gentle(s, t, x, age)
    ensures Keeps(s, t, age)
  {
    PlaceInside(s, x);
    forall a ensures Stable(s, t, x, a, age) {
      if BackupCell(s, a) {
        BackupApart(s, a);
        assert Kept(s, t, x, a);
      }
    }
    KeepsStable(s, t, x, age);
  }
}
