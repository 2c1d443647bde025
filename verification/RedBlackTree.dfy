/** The sentinel-based red-black tree, updated in place. */
module RedBlackTrees {
  import opened Outcomes
  import opened SearchTrees
  import opened TreeCells

  // ----- what the fix-ups do to the tree -----

  lemma {:induction false} SameItems(ctx: Context, t: Tree, u: Tree)
    requires Items(t) == Items(u)
    ensures Items(Fill(ctx, t)) == Items(Fill(ctx, u))
  {
    FillItems(ctx, t);
    FillItems(ctx, u);
  }

  /** A red node under a red parent, the only flaw an insertion leaves. */
  predicate RedAt(ctx: Context, t: Tree, h: int) {
    IsRed(t) && Coloured(t) && Level(t, h) && ContextLevel(ctx, h) && ContextColoured(ctx)
  }

  /** The grandparent after pushing its blackness down to its red children. */
  function PushedDown(ctx: Context, t: Tree): Tree
    requires ctx.In? && ctx.up.In?
  {
    var p, g := ctx, ctx.up;
    Make(g.side, Make(p.side, t, p.id, p.key, false, p.sibling), g.id, g.key, true, Painted(g.sibling, false))
  }

  lemma {:induction false} PushDownOk(ctx: Context, t: Tree, h: int)
    requires RedAt(ctx, t, h) && ContextRed(ctx) && IsRed(ctx.up.sibling)
    ensures RedAt(ctx.up.up, PushedDown(ctx, t), h + 1)
    ensures Items(Fill(ctx.up.up, PushedDown(ctx, t))) == Items(Fill(ctx, t))
  {
    assert ContextLevel(ctx.up, h) && ContextColoured(ctx.up);
    assert Coloured(ctx.up.sibling) && Level(ctx.up.sibling, h);
    var p := Make(ctx.side, t, ctx.id, ctx.key, false, ctx.sibling);
    assert Coloured(p) && Level(p, h + 1);
    SameItems(ctx.up.up, PushedDown(ctx, t), Parent(ctx.up, Parent(ctx, t)));
  }

  /** The parent after taking the black grandparent's place: `x` on the outer side. */
  function RotatedOver(ctx: Context, t: Tree): Tree
    requires ctx.In? && ctx.up.In?
  {
    var p, g := ctx, ctx.up;
    Make(g.side, t, p.id, p.key, false, Make(g.side, p.sibling, g.id, g.key, true, g.sibling))
  }

  /** Where the outer `x` stands after that. */
  function OverContext(ctx: Context): Context
    requires ctx.In? && ctx.up.In?
  {
    var g := ctx.up;
    In(g.up, g.side, ctx.id, ctx.key, false, Make(g.side, ctx.sibling, g.id, g.key, true, g.sibling))
  }

  lemma {:induction false} RotateOverOk(ctx: Context, t: Tree, h: int)
    requires RedAt(ctx, t, h) && ContextRed(ctx) && !IsRed(ctx.up.sibling) && ctx.side == ctx.up.side
    ensures RedAt(OverContext(ctx), t, h) && RotatedOver(ctx, t) == Parent(OverContext(ctx), t)
    ensures Items(Fill(OverContext(ctx), t)) == Items(Fill(ctx, t))
  {
    var g := ctx.up;
    assert ContextLevel(g, h) && ContextColoured(g);
    var r := RotatedOver(ctx, t);
    var far := Make(g.side, ctx.sibling, g.id, g.key, true, g.sibling);
    assert Coloured(far) && Level(far, h);
    var top := Make(g.side, Make(g.side, t, ctx.id, ctx.key, false, ctx.sibling), g.id, g.key, true, g.sibling);
    assert r == Rotated(top, Flip(g.side));
    RotatedItems(top, Flip(g.side));
    SameItems(g.up, r, Parent(g, Parent(ctx, t)));
  }

  function Depth(ctx: Context): nat {
    match ctx
    case Top => 0
    case In(up, _, _, _, _, _) => 1 + Depth(up)
  }

  /** With a black parent, or as the root painted black, the red node is no flaw. */
  lemma {:induction false} RedAtRoot(ctx: Context, t: Tree, h: int)
    requires RedAt(ctx, t, h) && !ContextRed(ctx)
    ensures RedBlack(Painted(Fill(ctx, t), false)) && Fill(ctx, t).Node?
  {
    if ctx.Top? {
      assert Level(Painted(t, false), h + 1);
    } else {
      FillRedBlack(ctx, t, h);
      FillItems(ctx, t);
    }
  }

  /** Rotating an inner `x` over its parent puts the red pair on the outer side. */
  function OuterContext(ctx: Context, t: Tree): Context
    requires ctx.In? && ctx.up.In? && t.Node?
  {
    In(ctx.up, ctx.up.side, t.id, t.key, true, Child(t, Flip(ctx.up.side)))
  }

  function OuterTree(ctx: Context, t: Tree): Tree
    requires ctx.In? && ctx.up.In? && t.Node?
  {
    Make(ctx.up.side, ctx.sibling, ctx.id, ctx.key, true, Child(t, ctx.up.side))
  }

  lemma {:induction false} RotateOutOk(ctx: Context, t: Tree, h: int)
    requires RedAt(ctx, t, h) && ContextRed(ctx) && ctx.side != ctx.up.side
    ensures var s := ctx.up.side;
      && Child(Parent(ctx, t), Flip(s)).Node?
      && Rotated(Parent(ctx, t), s) == Parent(OuterContext(ctx, t), OuterTree(ctx, t))
    ensures RedAt(OuterContext(ctx, t), OuterTree(ctx, t), h)
    ensures Items(Fill(OuterContext(ctx, t), OuterTree(ctx, t))) == Items(Fill(ctx, t))
  {
    assert ContextLevel(ctx.up, h) && ContextColoured(ctx.up);
    RotatedItems(Parent(ctx, t), ctx.up.side);
    SameItems(ctx.up, Rotated(Parent(ctx, t), ctx.up.side), Parent(ctx, t));
  }

  lemma {:induction false} InsertedItems(ctx: Context, t: Tree, key: int)
    requires t.Node? && t.left.Leaf? && t.right.Leaf? && t.key == key
    requires AtMost(Before(ctx), key) && Above(After(ctx), key) && Sorted(Items(Fill(ctx, Leaf)))
    ensures Inserted(Items(Fill(ctx, Leaf)), Items(Fill(ctx, t)), Item(t.id, key)) && Sorted(Items(Fill(ctx, t)))
  {
    var a, m, b := Before(ctx), Item(t.id, key), After(ctx);
    FillItems(ctx, Leaf);
    FillItems(ctx, t);
    assert Items(t) == [m] && Items(Fill(ctx, Leaf)) == a + b;
    InsertedAt(a, m, b);
    SortedInsert(a, m, b);
  }

  /** What comes next to the root of a subtree that has no child on that side. */
  lemma {:induction false} Neighbours(ctx: Context, t: Tree)
    requires t.Node?
    ensures t.left.Leaf? ==> Previous(Items(Fill(ctx, t)), t.id, LastOf(Before(ctx), NIL), NIL)
    ensures t.right.Leaf? ==> Next(Items(Fill(ctx, t)), t.id, FirstOf(After(ctx), NIL), NIL)
  {
    AroundRoot(ctx, t);
    assert t.left.Leaf? ==> Before(ctx) + Items(t.left) == Before(ctx);
    assert t.right.Leaf? ==> Items(t.right) + After(ctx) == After(ctx);
    NextAt(Before(ctx) + Items(t.left), Item(t.id, t.key), Items(t.right) + After(ctx), NIL);
  }

  /** The leftmost node to the right of `z` comes right after it. */
  lemma {:induction false} LeftmostNext(z: nat, ctx: Context, t: Tree, a: seq<Item>, key: int)
    requires t.Node? && t.left.Leaf? && Before(ctx) == a + [Item(z, key)]
    ensures Next(Items(Fill(ctx, t)), z, t.id, NIL)
  {
    AroundRoot(ctx, t);
    assert Before(ctx) + Items(t.left) == a + [Item(z, key)];
    var b := [Item(t.id, t.key)] + (Items(t.right) + After(ctx));
    assert Items(Fill(ctx, t)) == a + [Item(z, key)] + b;
    NextAt(a, Item(z, key), b, NIL);
  }

  lemma {:induction false} RightmostPrevious(z: nat, ctx: Context, t: Tree, key: int, b: seq<Item>)
    requires t.Node? && t.right.Leaf? && After(ctx) == [Item(z, key)] + b
    ensures Previous(Items(Fill(ctx, t)), z, t.id, NIL)
  {
    AroundRoot(ctx, t);
    assert Items(t.right) + After(ctx) == [Item(z, key)] + b;
    var a := (Before(ctx) + Items(t.left)) + [Item(t.id, t.key)];
    assert Items(Fill(ctx, t)) == a + [Item(z, key)] + b;
    NextAt(a, Item(z, key), b, NIL);
  }

  // ----- what the deletion fix-up does to the tree -----

  /** The paths through the hole have one black node too few, the only flaw a deletion leaves. */
  predicate ShortAt(ctx: Context, t: Tree, h: int) {
    Coloured(Painted(t, false)) && Level(t, h) && ContextLevel(ctx, h + 1) && ContextColoured(ctx)
  }

  /** The sibling of a short black node is a node. */
  lemma SiblingNode(ctx: Context, t: Tree, h: int)
    requires ShortAt(ctx, t, h) && ctx.In?
    ensures ctx.sibling.Node?
  {
    LevelNonNegative(t, h);
  }

  lemma {:induction false} PaintedItems(t: Tree, red: bool)
    ensures Items(Painted(t, red)) == Items(t)
  {
  }

  /** A red sibling is rotated over the parent; the new sibling is black. */
  function LiftedContext(ctx: Context): Context
    requires ctx.In? && ctx.sibling.Node?
  {
    var w := ctx.sibling;
    In(In(ctx.up, ctx.side, w.id, w.key, false, Child(w, Flip(ctx.side))),
       ctx.side, ctx.id, ctx.key, true, Child(w, ctx.side))
  }

  lemma {:induction false} LiftOk(ctx: Context, t: Tree, h: int)
    requires ShortAt(ctx, t, h) && ctx.In? && IsRed(ctx.sibling)
    ensures ShortAt(LiftedContext(ctx), t, h) && !IsRed(LiftedContext(ctx).sibling)
    ensures Items(Fill(LiftedContext(ctx), t)) == Items(Fill(ctx, t))
    ensures var w, s := ctx.sibling, ctx.side;
      var top := Make(s, t, ctx.id, ctx.key, true, Painted(w, false));
      Rotated(top, s) == Parent(LiftedContext(ctx).up, Parent(LiftedContext(ctx), t))
  {
    var w, s := ctx.sibling, ctx.side;
    var top := Make(s, t, ctx.id, ctx.key, true, Painted(w, false));
    assert Coloured(w) && Level(w, h + 1);
    RotatedItems(top, s);
    SameItems(ctx.up, Rotated(top, s), Parent(ctx, t));
  }

  /** The parent with a black sibling turned red: short itself, if black. */
  function Shortened(ctx: Context, t: Tree): Tree
    requires ctx.In?
  {
    Make(ctx.side, t, ctx.id, ctx.key, ctx.red, Painted(ctx.sibling, true))
  }

  lemma {:induction false} ShortenOk(ctx: Context, t: Tree, h: int)
    requires ShortAt(ctx, t, h) && ctx.In? && !IsRed(t) && ctx.sibling.Node? && !ctx.sibling.red
    requires !IsRed(ctx.sibling.left) && !IsRed(ctx.sibling.right)
    ensures ShortAt(ctx.up, Shortened(ctx, t), if ctx.red then h else h + 1)
    ensures Items(Fill(ctx.up, Shortened(ctx, t))) == Items(Fill(ctx, t))
  {
    var w := Painted(ctx.sibling, true);
    assert Level(ctx.sibling, h + 1) && Coloured(ctx.sibling);
    assert Level(w, h) && Coloured(w);
    SameItems(ctx.up, Shortened(ctx, t), Parent(ctx, t));
  }

  /** A red near nephew is rotated over the sibling; the far nephew is then red. */
  function TurnedContext(ctx: Context): Context
    requires ctx.In? && ctx.sibling.Node? && Child(ctx.sibling, ctx.side).Node?
  {
    var w, s := ctx.sibling, ctx.side;
    var n := Child(w, s);
    ctx.(sibling := Make(s, Child(n, s), n.id, n.key, false,
                         Make(s, Child(n, Flip(s)), w.id, w.key, true, Child(w, Flip(s)))))
  }

  lemma {:induction false} TurnOk(ctx: Context, t: Tree, h: int)
    requires ShortAt(ctx, t, h) && ctx.In? && ctx.sibling.Node? && !ctx.sibling.red
    requires IsRed(Child(ctx.sibling, ctx.side)) && !IsRed(Child(ctx.sibling, Flip(ctx.side)))
    ensures var next := TurnedContext(ctx);
      && ShortAt(next, t, h) && !IsRed(next.sibling) && IsRed(Child(next.sibling, Flip(ctx.side)))
      && Items(Fill(next, t)) == Items(Fill(ctx, t))
    ensures var w, s := ctx.sibling, ctx.side;
      var top := Make(s, Painted(Child(w, s), false), w.id, w.key, true, Child(w, Flip(s)));
      Rotated(top, Flip(s)) == TurnedContext(ctx).sibling
  {
    var w, s := ctx.sibling, ctx.side;
    var n, next := Child(w, s), TurnedContext(ctx);
    assert Level(w, h + 1) && Coloured(w);
    assert Level(n, h) && Coloured(n);
    var far := Child(next.sibling, Flip(s));
    assert Level(far, h) && Coloured(far);
    var top := Make(s, Painted(n, false), w.id, w.key, true, Child(w, Flip(s)));
    RotatedItems(top, Flip(s));
    PaintedItems(n, false);
    assert Items(top) == Items(w);
    SameItems(ctx.up, Parent(next, t), Parent(ctx, t));
  }

  /** A red far nephew pays for the missing black node. */
  function Repaired(ctx: Context, t: Tree): Tree
    requires ctx.In? && ctx.sibling.Node?
  {
    var w, s := ctx.sibling, ctx.side;
    Make(s, Make(s, t, ctx.id, ctx.key, false, Child(w, s)), w.id, w.key, ctx.red, Painted(Child(w, Flip(s)), false))
  }

  lemma {:induction false} RepairOk(ctx: Context, t: Tree, h: int)
    requires ShortAt(ctx, t, h) && ctx.In? && !IsRed(t) && ctx.sibling.Node? && !ctx.sibling.red
    requires IsRed(Child(ctx.sibling, Flip(ctx.side)))
    ensures RedBlack(Fill(ctx.up, Repaired(ctx, t)))
    ensures Items(Fill(ctx.up, Repaired(ctx, t))) == Items(Fill(ctx, t))
    ensures var w, s := ctx.sibling, ctx.side;
      var top := Make(s, t, ctx.id, ctx.key, false,
                      Make(s, Child(w, s), w.id, w.key, ctx.red, Painted(Child(w, Flip(s)), false)));
      Rotated(top, s) == Repaired(ctx, t)
  {
    var w, s := ctx.sibling, ctx.side;
    assert Level(w, h + 1) && Coloured(w);
    var near := Make(s, t, ctx.id, ctx.key, false, Child(w, s));
    assert Level(near, h + 1) && Coloured(near);
    var far := Child(w, Flip(s));
    assert Level(far, h) && Coloured(far);
    assert Level(Painted(far, false), h + 1) && Coloured(Painted(far, false));
    PaintedItems(far, false);
    FillRedBlack(ctx.up, Repaired(ctx, t), if ctx.red then h + 1 else h + 2);
    var top := Make(s, t, ctx.id, ctx.key, false,
                    Make(s, Child(w, s), w.id, w.key, ctx.red, Painted(Child(w, Flip(s)), false)));
    RotatedItems(top, s);
    assert Items(Child(top, Flip(s))) == Items(w);
    SameItems(ctx.up, Repaired(ctx, t), Parent(ctx, t));
  }

  /** Painting a short red node black makes up for the missing one. */
  lemma {:induction false} ShortRedOk(ctx: Context, t: Tree, h: int)
    requires ShortAt(ctx, t, h) && IsRed(t)
    ensures RedBlack(Fill(ctx, Painted(t, false))) && Items(Fill(ctx, Painted(t, false))) == Items(Fill(ctx, t))
  {
    FillRedBlack(ctx, Painted(t, false), h + 1);
    PaintedItems(t, false);
    SameItems(ctx, t, Painted(t, false));
  }

  /** Splicing out a red node leaves no flaw, splicing out a black one a short child. */
  lemma SpliceOk(ctx: Context, t: Tree) returns (h: int)
    requires RedBlack(Fill(ctx, t)) && t.Node? && (t.left.Leaf? || t.right.Leaf?)
    ensures t.red ==> RedBlack(Fill(ctx, OnlyChild(t)))
    ensures !t.red ==> ShortAt(ctx, OnlyChild(t), h)
  {
    h := Unfill(ctx, t);
    if t.red {
      FillRedBlack(ctx, OnlyChild(t), h);
    } else {
      h := h - 1;
    }
  }

  /** What splicing out removes. */
  lemma {:induction false} SpliceItems(ctx: Context, t: Tree)
    requires t.Node? && (t.left.Leaf? || t.right.Leaf?)
    ensures var a, b := Before(ctx) + Items(t.left), Items(t.right) + After(ctx);
      && Items(Fill(ctx, t)) == a + [Item(t.id, t.key)] + b
      && Items(Fill(ctx, OnlyChild(t))) == a + b
  {
    AroundRoot(ctx, t);
    FillItems(ctx, OnlyChild(t));
    Regroup(Before(ctx), Items(t.left), [], Items(t.right), After(ctx));
    assert Items(OnlyChild(t)) == Items(t.left) + [] + Items(t.right);
    assert (Before(ctx) + Items(t.left)) + [] == Before(ctx) + Items(t.left);
  }

  /** A node's identity and key play no part in the colours. */
  lemma {:induction false} RenamedRedBlack(ctx: Context, t: Tree, id: nat, key: int)
    requires t.Node? && RedBlack(Fill(ctx, t))
    ensures RedBlack(Fill(ctx, t.(id := id, key := key)))
  {
    var h := Unfill(ctx, t);
    FillRedBlack(ctx, t.(id := id, key := key), h);
  }

  /** `y` in the place of `z`, found anywhere in a tree with items `a + [z] + b`. */
  lemma {:induction false} RenamedItems(ctx: Context, t: Tree, a: seq<Item>, b: seq<Item>, id: nat, key: int)
    requires t.Node? && Distinct(Fill(ctx, t)) && Items(Fill(ctx, t)) == a + [Item(t.id, t.key)] + b
    ensures Items(Fill(ctx, t.(id := id, key := key))) == a + [Item(id, key)] + b
  {
    var m := [Item(t.id, t.key)];
    var a', b' := Before(ctx) + Items(t.left), Items(t.right) + After(ctx);
    AroundRoot(ctx, t);
    AroundRoot(ctx, t.(id := id, key := key));
    var items := Items(Fill(ctx, t));
    assert items[|a|] == m[0] && items[|a'|] == m[0];
    if |a| < |a'| {
      ItemsUnique(Fill(ctx, t), |a|, |a'|);
    } else if |a'| < |a| {
      ItemsUnique(Fill(ctx, t), |a'|, |a|);
    }
    assert a == items[..|a|] == a' && b == items[|a| + 1..] == b';
  }

  /** The items around a node and its successor, before and after the successor is spliced out. */
  lemma SuccessorItems(ctx: Context, t: Tree, yc: Context, yt: Tree) returns (rest: seq<Item>)
    requires t.Node? && yt.Node? && yt.left.Leaf? && Fill(yc, yt) == Fill(ctx, t)
    requires Before(yc) == Before(Below(ctx, t, R))
    ensures (Before(ctx) + Items(t.left)) + [Item(yt.id, yt.key)] + rest ==
      (Before(ctx) + Items(t.left)) + (Items(t.right) + After(ctx))
    ensures Items(Fill(yc, OnlyChild(yt))) == (Before(ctx) + Items(t.left)) + [Item(t.id, t.key)] + rest
  {
    rest := Items(yt.right) + After(yc);
    AroundRoot(ctx, t);
    SpliceItems(yc, yt);
    var a, b, n := Before(yc), Items(t.right) + After(ctx), [Item(yt.id, yt.key)];
    assert Before(yc) + Items(yt.left) == a;
    assert a + b == a + n + rest;
    assert b == (a + b)[|a|..] == n + rest;
  }

  lemma {:induction false} InMiddle(t: Tree, a: seq<Item>, m: Item, b: seq<Item>)
    requires Items(t) == a + [m] + b
    ensures m.id in Ids(t)
  {
    ItemIds(t);
    assert Items(t)[|a|] == m;
  }

  /** The node found by its identity has the key listed for it. */
  lemma {:induction false} KeyOfItem(ctx: Context, t: Tree, a: seq<Item>, m: Item, b: seq<Item>)
    requires t.Node? && t.id == m.id && Distinct(Fill(ctx, t)) && Items(Fill(ctx, t)) == a + [m] + b
    ensures t.key == m.key
  {
    AroundRoot(ctx, t);
    var k, items := |Before(ctx) + Items(t.left)|, Items(Fill(ctx, t));
    assert items[k] == Item(t.id, t.key) && items[|a|] == m;
    if k < |a| {
      ItemsUnique(Fill(ctx, t), k, |a|);
    } else if |a| < k {
      ItemsUnique(Fill(ctx, t), |a|, k);
    }
  }

  /** `root` is the parent of the hole, or the root above it. */
  predicate Anchored(ctx: Context, root: nat) {
    ctx.In? && (root == ctx.id || (ctx.up.In? && root == RootId(ctx.up)))
  }

  /** Trees with the same items name the same cells. */
  lemma {:induction false} SameSpan(ctx: Context, t: Tree, next: Context, u: Tree)
    requires Items(Fill(ctx, t)) == Items(Fill(next, u))
    ensures ContextIds(ctx) + Ids(t) == ContextIds(next) + Ids(u)
  {
    FillIds(ctx, t);
    FillIds(next, u);
    SameIds(Fill(ctx, t), Fill(next, u));
  }

  /** Cells not named by the tree are left alone. */
  predicate Elsewhere(c: seq<Cell>, d: seq<Cell>, ids: set<nat>) {
    |c| == |d| && forall i :: 0 <= i < |c| && i !in ids && i != ROOT ==> d[i] == c[i]
  }

  lemma {:induction false} RotationDone(c: seq<Cell>, d: seq<Cell>, ctx: Context, t: Tree, x: nat, p: nat, s: Side, y: nat, b: nat)
    requires Sentinels(c) && Zip(c, ctx, t, x, p) && t.Node? && Child(t, Flip(s)).Node?
    requires x < |c| && y == Get(c[x], Flip(s)) < |c| && b == Get(c[y], s)
    requires RotatesCells(c, d, x, y, b, p, s, if ctx.Top? then L else ctx.side)
    ensures Sentinels(d) && Elsewhere(c, d, ContextIds(ctx) + Ids(t)) && Zip(d, ctx, Rotated(t, s), y, p)
  {
    var y0, b0 := RotationCells(c, ctx, t, x, p, s);
    ZipRotate(c, d, ctx, t, x, p, s, y, b);
    ContextIdsInside(c, ctx, x, p);
    IdsInside(c, t, x, p);
  }

  ghost predicate Under(items: seq<Item>, key: int) {
    forall i :: 0 <= i < |items| ==> items[i].key < key
  }

  /** Going down by comparing keys, past an unequal key. */
  lemma QueryKeys(ctx: Context, t: Tree, q: int)
    requires t.Node? && t.key != q && Sorted(Items(Fill(ctx, t))) && Under(Before(ctx), q) && Above(After(ctx), q)
    ensures var below := Below(ctx, t, if t.key > q then L else R);
      Under(Before(below), q) && Above(After(below), q)
  {
    var a, m, b := Before(ctx) + Items(t.left), Item(t.id, t.key), Items(t.right) + After(ctx);
    AroundRoot(ctx, t);
    SortedSplit(a, m, b);
    if t.key > q {
      assert [m] + Items(t.right) + After(ctx) == [m] + b;
    }
  }

  class RedBlackTree {
    var cells: seq<Cell>
    ghost var tree: Tree

    ghost predicate Valid()
      reads this
    {
      Sentinels(cells) && Whole(cells, tree) && RedBlack(tree) && Sorted(Items(tree))
    }

    constructor ()
      ensures Valid() && Items(tree) == []
    {
      cells := [Cell(0, false, NIL, NIL, NIL), Cell(0, false, NIL, NIL, NIL)];
      tree := Leaf;
      new;
      assert Level(Leaf, 0);
    }

    /** LeftRotate (towards `L`) and RightRotate (towards `R`). */
    method Rotate(x: nat, s: Side, ghost ctx: Context, ghost t: Tree)
      requires Sentinels(cells) && x < |cells| && Zip(cells, ctx, t, x, cells[x].parent)
      requires t.Node? && Child(t, Flip(s)).Node?
      modifies this`cells
      ensures Sentinels(cells) && Elsewhere(old(cells), cells, ContextIds(ctx) + Ids(t))
      ensures Zip(cells, ctx, Rotated(t, s), old(Get(cells[x], Flip(s))), old(cells[x].parent))
    {
      ghost var c, q := cells, cells[x].parent;
      ghost var y0, b0 := RotationCells(c, ctx, t, x, q, s);
      ghost var ps := if ctx.Top? then L else ctx.side;
      var y := Get(cells[x], Flip(s));
      var b := Get(cells[y], s);
      cells := cells[x := Put(cells[x], Flip(s), b)];
      if b != NIL {
        cells := cells[b := cells[b].(parent := x)];
      }
      var p := cells[x].parent;
      cells := cells[y := cells[y].(parent := p)];
      cells := cells[p := Put(cells[p], if x == cells[p].left then L else R, y)];
      cells := cells[y := Put(cells[y], s, x)];
      cells := cells[x := cells[x].(parent := y)];
      assert cells == RotateCells(c, x, s);
      RotateCellsOk(c, x, s, ps);
      RotationDone(c, cells, ctx, t, x, q, s, y, b);
    }

    /** Recolours the cell that `x` points at. */
    method Paint(x: nat, red: bool, ghost ctx: Context, ghost t: Tree, ghost p: nat)
      requires Sentinels(cells) && Zip(cells, ctx, t, x, p) && t.Node?
      modifies this`cells
      ensures Sentinels(cells) && Elsewhere(old(cells), cells, Ids(t))
      ensures x < |cells| && cells == old(cells)[x := old(cells)[x].(red := red)]
      ensures Zip(cells, ctx, Painted(t, red), x, p)
    {
      ZipPaint(cells, ctx, t, x, p, red);
      assert x in Ids(t);
      cells := cells[x := cells[x].(red := red)];
    }

    /** The uncle is red: the grandparent turns red instead of its children. */
    method PushDown(x: nat, p: nat, s: Side, ghost ctx: Context, ghost t: Tree) returns (g: nat)
      requires Sentinels(cells) && Zip(cells, ctx, t, x, p)
      requires ctx.In? && ctx.up.In? && ctx.up.sibling.Node? && s == ctx.up.side
      modifies this`cells
      ensures Sentinels(cells) && g < |cells| && Zip(cells, ctx.up.up, PushedDown(ctx, t), g, cells[g].parent)
    {
      ghost var gc := ctx.up;
      ZipUp(cells, ctx, t, x, p);
      g := cells[p].parent;
      Paint(p, false, gc, Parent(ctx, t), g);
      ghost var pt := Painted(Parent(ctx, t), false);
      ZipUp(cells, gc, pt, p, g);
      ghost var gt, gp := Parent(gc, pt), cells[g].parent;
      ZipDown(cells, gc.up, gt, g, gp, Flip(s));
      var y := Get(cells[g], Flip(s));
      Paint(y, false, Below(gc.up, gt, Flip(s)), gc.sibling, g);
      ghost var uc := Below(gc.up, gt, Flip(s));
      ZipUp(cells, uc, Painted(gc.sibling, false), y, g);
      Paint(g, true, gc.up, Parent(uc, Painted(gc.sibling, false)), gp);
    }

    /** An inner `x`: rotates it over its parent, which becomes the new outer `x`. */
    method RotateOut(x: nat, p: nat, s: Side, ghost ctx: Context, ghost t: Tree, ghost h: int)
      requires Sentinels(cells) && Zip(cells, ctx, t, x, p) && RedAt(ctx, t, h) && ContextRed(ctx)
      requires s == ctx.up.side != ctx.side
      modifies this`cells
      ensures Sentinels(cells) && p < |cells| && cells[p].parent == x
      ensures Zip(cells, OuterContext(ctx, t), OuterTree(ctx, t), p, x)
    {
      RotateOutOk(ctx, t, h);
      ZipUp(cells, ctx, t, x, p);
      ghost var g := cells[p].parent;
      Rotate(p, s, ctx.up, Parent(ctx, t));
      ghost var top := Rotated(Parent(ctx, t), s);
      ZipDown(cells, ctx.up, top, x, g, s);
    }

    /** An outer `x` with a black uncle: the parent takes the grandparent's place. */
    method RotateOver(x: nat, p: nat, s: Side, ghost ctx: Context, ghost t: Tree)
      requires Sentinels(cells) && Zip(cells, ctx, t, x, p)
      requires ContextRed(ctx) && ctx.up.In? && s == ctx.up.side == ctx.side && t.Node?
      modifies this`cells
      ensures Sentinels(cells) && x < |cells| && cells[x].parent == p && Zip(cells, OverContext(ctx), t, x, p)
    {
      ghost var gc := ctx.up;
      ZipUp(cells, ctx, t, x, p);
      var g := cells[p].parent;
      Paint(p, false, gc, Parent(ctx, t), g);
      ghost var pt := Painted(Parent(ctx, t), false);
      ZipUp(cells, gc, pt, p, g);
      ghost var gt, gp := Parent(gc, pt), cells[g].parent;
      Paint(g, true, gc.up, gt, gp);
      Rotate(g, Flip(s), gc.up, Painted(gt, true));
      assert Rotated(Painted(gt, true), Flip(s)) == RotatedOver(ctx, t);
      ZipDown(cells, gc.up, RotatedOver(ctx, t), p, gp, s);
    }

    /** A black uncle: one or two rotations, and `x` is under a black parent. */
    method Settle(x: nat, s: Side, ghost ctx: Context, ghost t: Tree, ghost h: int)
      returns (x': nat, ghost ctx': Context, ghost t': Tree)
      requires Sentinels(cells) && x < |cells| && Zip(cells, ctx, t, x, cells[x].parent)
      requires RedAt(ctx, t, h) && ContextRed(ctx) && !IsRed(ctx.up.sibling) && s == ctx.up.side
      modifies this`cells
      ensures Sentinels(cells) && x' < |cells| && Zip(cells, ctx', t', x', cells[x'].parent)
      ensures RedAt(ctx', t', h) && Items(Fill(ctx', t')) == Items(Fill(ctx, t)) && Depth(ctx') < Depth(ctx)
    {
      var p := cells[x].parent;
      x', ctx', t' := x, ctx, t;
      SideOf(cells, ctx, t, x, p);
      if x == Get(cells[p], Flip(s)) {
        RotateOutOk(ctx, t, h);
        RotateOut(x, p, s, ctx, t, h);
        x', p := p, x;
        ctx', t' := OuterContext(ctx, t), OuterTree(ctx, t);
      }
      RotateOverOk(ctx', t', h);
      RotateOver(x', p, s, ctx', t');
      ctx' := OverContext(ctx');
    }

    /** On which side of its parent `p` hangs, and whether the other child of that parent is red. */
    method Uncle(x: nat, ghost ctx: Context, ghost t: Tree) returns (s: Side, red: bool)
      requires Sentinels(cells) && x < |cells| && Zip(cells, ctx, t, x, cells[x].parent) && ctx.In? && ctx.up.In?
      ensures s == ctx.up.side && red == IsRed(ctx.up.sibling)
    {
      var p := cells[x].parent;
      ZipUp(cells, ctx, t, x, p);
      var g := cells[p].parent;
      SideOf(cells, ctx.up, Parent(ctx, t), p, g);
      s := if p == cells[g].left then L else R;
      red := cells[Get(cells[g], Flip(s))].red;
    }

    /** RBTreeInsert's loop, and the root painted black after it. */
    method InsertFixUp(z: nat, ghost ctx0: Context, ghost t0: Tree, ghost h0: int)
      requires Sentinels(cells) && z < |cells| && Zip(cells, ctx0, t0, z, cells[z].parent) && RedAt(ctx0, t0, h0)
      requires Sorted(Items(Fill(ctx0, t0)))
      modifies this
      ensures Valid() && Items(tree) == Items(Fill(ctx0, t0))
    {
      var x := z;
      ghost var ctx, t, h := ctx0, t0, h0;
      ContextIdsInside(cells, ctx, x, cells[x].parent);
      while cells[cells[x].parent].red
        invariant Sentinels(cells) && x < |cells| && cells[x].parent < |cells|
        invariant Zip(cells, ctx, t, x, cells[x].parent) && RedAt(ctx, t, h)
        invariant Items(Fill(ctx, t)) == Items(Fill(ctx0, t0))
        decreases Depth(ctx)
      {
        var s, red := Uncle(x, ctx, t);
        if red {
          PushDownOk(ctx, t, h);
          x := PushDown(x, cells[x].parent, s, ctx, t);
          ctx, t, h := ctx.up.up, PushedDown(ctx, t), h + 1;
        } else {
          x, ctx, t := Settle(x, s, ctx, t, h);
        }
        ContextIdsInside(cells, ctx, x, cells[x].parent);
      }
      BlackenRoot(x, ctx, t, h);
    }

    method BlackenRoot(x: nat, ghost ctx: Context, ghost t: Tree, ghost h: int)
      requires Sentinels(cells) && x < |cells| && Zip(cells, ctx, t, x, cells[x].parent)
      requires RedAt(ctx, t, h) && !ContextRed(ctx) && Sorted(Items(Fill(ctx, t)))
      modifies this
      ensures Valid() && Items(tree) == Items(Fill(ctx, t))
    {
      RedAtRoot(ctx, t, h);
      ZipWhole(cells, ctx, t, x, cells[x].parent);
      Paint(cells[ROOT].left, false, Top, Fill(ctx, t), ROOT);
      tree := Painted(Fill(ctx, t), false);
    }

    /** TreeInsertHelp: the hole below which a new node with `key` belongs, after all equal keys. */
    method FindHole(key: int) returns (y: nat, s: Side, ghost ctx: Context)
      requires Valid()
      ensures Zip(cells, ctx, Leaf, NIL, y) && Fill(ctx, Leaf) == tree && y < |cells|
      ensures AtMost(Before(ctx), key) && Above(After(ctx), key)
      ensures s == if ctx.Top? then L else ctx.side
    {
      var x := cells[ROOT].left;
      y := ROOT;
      ghost var t := tree;
      ctx := Top;
      while x != NIL
        invariant Zip(cells, ctx, t, x, y) && Fill(ctx, t) == tree && y < |cells|
        invariant AtMost(Before(ctx), key) && Above(After(ctx), key)
        invariant y == ROOT <==> ctx.Top?
        invariant ctx.In? ==> (ctx.side == L <==> cells[y].key > key)
        decreases t
      {
        DownKeys(ctx, t, key);
        s := if cells[x].key > key then L else R;
        ZipDown(cells, ctx, t, x, y, s);
        y, x := x, Get(cells[x], s);
        ctx, t := Below(ctx, t, s), Child(t, s);
      }
      s := if y == ROOT || cells[y].key > key then L else R;
    }

    /** RBTreeInsert: the new node goes after every key not greater than its own. */
    method Insert(key: int) returns (z: nat)
      requires Valid()
      modifies this
      ensures Valid() && z == old(|cells|) && Inserted(Items(old(tree)), Items(tree), Item(z, key))
    {
      var y, s;
      ghost var ctx;
      y, s, ctx := FindHole(key);
      ghost var c := cells;
      ghost var h := Unfill(ctx, Leaf);
      z := |cells|;
      cells := cells + [Cell(key, true, NIL, NIL, y)];
      cells := cells[y := Put(cells[y], s, z)];
      ghost var t := Node(Leaf, z, key, true, Leaf);
      ZipAttach(c, cells, ctx, y, key, true);
      InsertedItems(ctx, t, key);
      InsertFixUp(z, ctx, t, h);
    }

    // ----- neighbours -----

    /** The outermost node of a subtree on side `s`. */
    method Extreme(x: nat, s: Side, ghost ctx0: Context, ghost t0: Tree)
      returns (y: nat, ghost ctx: Context, ghost t: Tree)
      requires x < |cells| && Zip(cells, ctx0, t0, x, cells[x].parent) && t0.Node?
      ensures y < |cells| && Zip(cells, ctx, t, y, cells[y].parent) && t.Node? && Child(t, s).Leaf?
      ensures Fill(ctx, t) == Fill(ctx0, t0)
      ensures s == L ==> Before(ctx) == Before(ctx0)
      ensures s == R ==> After(ctx) == After(ctx0)
    {
      y, ctx, t := x, ctx0, t0;
      while Get(cells[y], s) != NIL
        invariant y < |cells| && Zip(cells, ctx, t, y, cells[y].parent) && t.Node?
        invariant Fill(ctx, t) == Fill(ctx0, t0)
        invariant s == L ==> Before(ctx) == Before(ctx0)
        invariant s == R ==> After(ctx) == After(ctx0)
        decreases t
      {
        ZipDown(cells, ctx, t, y, cells[y].parent, s);
        y := Get(cells[y], s);
        ctx, t := Below(ctx, t, s), Child(t, s);
      }
      ZipDown(cells, ctx, t, y, cells[y].parent, s);
    }

    /** TreeSuccessor. */
    method Successor(z: nat) returns (y: nat)
      requires Valid() && z in Ids(tree)
      ensures Next(Items(tree), z, y, NIL)
    {
      ghost var ctx, t := Locate(cells, Top, tree, cells[ROOT].left, ROOT, z);
      ZipDown(cells, ctx, t, z, cells[z].parent, R);
      if cells[z].right != NIL {
        ghost var dc, dt;
        y, dc, dt := Extreme(cells[z].right, L, Below(ctx, t, R), t.right);
        LeftmostNext(z, dc, dt, Before(ctx) + Items(t.left), t.key);
      } else {
        y := ClimbRight(z, ctx, t);
        Neighbours(ctx, t);
      }
    }

    /** TreeSuccessor's way up: the first ancestor that `x` is not to the right of. */
    method ClimbRight(z: nat, ghost ctx0: Context, ghost t0: Tree) returns (y: nat)
      requires Sentinels(cells) && z < |cells| && Zip(cells, ctx0, t0, z, cells[z].parent) && t0.Node?
      ensures y == FirstOf(After(ctx0), NIL)
    {
      var x: nat := z;
      y := cells[z].parent;
      ghost var ctx, t := ctx0, t0;
      ContextIdsInside(cells, ctx, x, y);
      while x == cells[y].right
        invariant x < |cells| && y < |cells| && Zip(cells, ctx, t, x, y) && t.Node? && After(ctx) == After(ctx0)
        decreases ctx
      {
        SideOf(cells, ctx, t, x, y);
        ZipUp(cells, ctx, t, x, y);
        x, y := y, cells[y].parent;
        ctx, t := ctx.up, Parent(ctx, t);
        ContextIdsInside(cells, ctx, x, y);
      }
      if y == ROOT {
        return NIL;
      }
    }

    /** TreePredecessor. */
    method Predecessor(z: nat) returns (y: nat)
      requires Valid() && z in Ids(tree)
      ensures Previous(Items(tree), z, y, NIL)
    {
      ghost var ctx, t := Locate(cells, Top, tree, cells[ROOT].left, ROOT, z);
      ZipDown(cells, ctx, t, z, cells[z].parent, L);
      if cells[z].left != NIL {
        ghost var dc, dt;
        y, dc, dt := Extreme(cells[z].left, R, Below(ctx, t, L), t.left);
        assert [Item(z, t.key)] + Items(t.right) + After(ctx) == [Item(z, t.key)] + (Items(t.right) + After(ctx));
        RightmostPrevious(z, dc, dt, t.key, Items(t.right) + After(ctx));
      } else {
        y := ClimbLeft(z, ctx, t);
        Neighbours(ctx, t);
      }
    }

    /** TreePredecessor's way up: the first ancestor that `x` is not to the left of. */
    method ClimbLeft(z: nat, ghost ctx0: Context, ghost t0: Tree) returns (y: nat)
      requires Sentinels(cells) && z < |cells| && Zip(cells, ctx0, t0, z, cells[z].parent) && t0.Node?
      ensures y == LastOf(Before(ctx0), NIL)
    {
      var x: nat := z;
      y := cells[z].parent;
      ghost var ctx, t := ctx0, t0;
      ContextIdsInside(cells, ctx, x, y);
      while x == cells[y].left
        invariant x < |cells| && y < |cells| && Zip(cells, ctx, t, x, y) && t.Node? && Before(ctx) == Before(ctx0)
        decreases ctx
      {
        if y == ROOT {
          return NIL;
        }
        SideOf(cells, ctx, t, x, y);
        ZipUp(cells, ctx, t, x, y);
        x, y := y, cells[y].parent;
        ctx, t := ctx.up, Parent(ctx, t);
        ContextIdsInside(cells, ctx, x, y);
      }
    }

    // ----- deletion -----

    method PaintParent(x: nat, p: nat, red: bool, ghost ctx: Context, ghost t: Tree)
      requires Sentinels(cells) && Zip(cells, ctx, t, x, p) && ctx.In?
      modifies this`cells
      ensures Sentinels(cells) && Elsewhere(old(cells), cells, ContextIds(ctx))
      ensures Zip(cells, ctx.(red := red), t, x, p) && cells[ROOT] == old(cells[ROOT])
    {
      ZipPaintParent(cells, ctx, t, x, p, red);
      cells := cells[p := cells[p].(red := red)];
    }

    method PaintSibling(x: nat, p: nat, s: Side, red: bool, ghost ctx: Context, ghost t: Tree)
      requires Sentinels(cells) && Zip(cells, ctx, t, x, p) && ctx.In? && ctx.sibling.Node? && s == ctx.side
      modifies this`cells
      ensures Sentinels(cells) && Elsewhere(old(cells), cells, ContextIds(ctx))
      ensures Zip(cells, ctx.(sibling := Painted(ctx.sibling, red)), t, x, p) && cells[ROOT] == old(cells[ROOT])
    {
      ZipAcross(cells, ctx, t, x, p);
      Paint(Get(cells[p], Flip(s)), red, Across(ctx, t), ctx.sibling, p);
      ZipAcross(cells, Across(ctx, t), Painted(ctx.sibling, red), Get(cells[p], Flip(s)), p);
    }

    /** Paints the child on side `n` of the sibling. */
    method PaintNephew(x: nat, p: nat, s: Side, n: Side, red: bool, ghost ctx: Context, ghost t: Tree)
      requires Sentinels(cells) && Zip(cells, ctx, t, x, p) && ctx.In? && s == ctx.side
      requires ctx.sibling.Node? && Child(ctx.sibling, n).Node?
      modifies this`cells
      ensures Sentinels(cells) && Elsewhere(old(cells), cells, ContextIds(ctx))
      ensures var w := ctx.sibling;
        var v := Make(n, Painted(Child(w, n), red), w.id, w.key, w.red, Child(w, Flip(n)));
        Zip(cells, ctx.(sibling := v), t, x, p)
    {
      ghost var w := ctx.sibling;
      ghost var wc := Across(ctx, t);
      ZipAcross(cells, ctx, t, x, p);
      var y := Get(cells[p], Flip(s));
      ZipDown(cells, wc, w, y, p, n);
      Paint(Get(cells[y], n), red, Below(wc, w, n), Child(w, n), y);
      ghost var v := Make(n, Painted(Child(w, n), red), w.id, w.key, w.red, Child(w, Flip(n)));
      ZipUp(cells, Below(wc, w, n), Painted(Child(w, n), red), Get(cells[y], n), y);
      ZipAcross(cells, wc, v, y, p);
    }

    /** Rotates the parent of `x` towards `x`; its sibling takes the parent's place. */
    method RotateParent(x: nat, p: nat, s: Side, ghost ctx: Context, ghost t: Tree)
      requires Sentinels(cells) && Zip(cells, ctx, t, x, p) && ctx.In? && s == ctx.side && ctx.sibling.Node?
      modifies this`cells
      ensures Sentinels(cells) && Elsewhere(old(cells), cells, ContextIds(ctx) + Ids(t))
      ensures ctx.sibling.id < |cells|
      ensures Zip(cells, ctx.up, Rotated(Parent(ctx, t), s), ctx.sibling.id, cells[ctx.sibling.id].parent)
    {
      ZipAcross(cells, ctx, t, x, p);
      ZipUp(cells, ctx, t, x, p);
      Rotate(p, s, ctx.up, Parent(ctx, t));
    }

    /** A red sibling takes the parent's place. */
    method Lift(x: nat, p: nat, s: Side, ghost ctx: Context, ghost t: Tree, ghost h: int)
      requires Sentinels(cells) && Zip(cells, ctx, t, x, p) && ShortAt(ctx, t, h)
      requires ctx.In? && IsRed(ctx.sibling) && s == ctx.side
      modifies this`cells
      ensures Sentinels(cells) && Elsewhere(old(cells), cells, ContextIds(ctx) + Ids(t))
      ensures Zip(cells, LiftedContext(ctx), t, x, p)
    {
      LiftOk(ctx, t, h);
      PaintSibling(x, p, s, false, ctx, t);
      ghost var c1 := ctx.(sibling := Painted(ctx.sibling, false));
      PaintParent(x, p, true, c1, t);
      RotateParent(x, p, s, c1.(red := true), t);
      ghost var y, next := ctx.sibling.id, LiftedContext(ctx);
      ZipDown(cells, ctx.up, Parent(next.up, Parent(next, t)), y, cells[y].parent, s);
      ZipDown(cells, next.up, Parent(next, t), p, y, s);
    }

    /** A black sibling with black children turns red. */
    method Shorten(x: nat, p: nat, s: Side, ghost ctx: Context, ghost t: Tree)
      requires Sentinels(cells) && Zip(cells, ctx, t, x, p) && ctx.In? && ctx.sibling.Node? && s == ctx.side
      modifies this`cells
      ensures Sentinels(cells) && Elsewhere(old(cells), cells, ContextIds(ctx) + Ids(t))
      ensures p < |cells| && Zip(cells, ctx.up, Shortened(ctx, t), p, cells[p].parent)
      ensures cells[ROOT] == old(cells[ROOT])
    {
      PaintSibling(x, p, s, true, ctx, t);
      ZipUp(cells, ctx.(sibling := Painted(ctx.sibling, true)), t, x, p);
    }

    /** A red near nephew takes the sibling's place. */
    method Turn(x: nat, p: nat, s: Side, ghost ctx: Context, ghost t: Tree, ghost h: int)
      requires Sentinels(cells) && Zip(cells, ctx, t, x, p) && ShortAt(ctx, t, h)
      requires ctx.In? && ctx.sibling.Node? && !ctx.sibling.red && s == ctx.side
      requires IsRed(Child(ctx.sibling, s)) && !IsRed(Child(ctx.sibling, Flip(s)))
      modifies this`cells
      ensures Sentinels(cells) && Elsewhere(old(cells), cells, ContextIds(ctx) + Ids(t))
      ensures Zip(cells, TurnedContext(ctx), t, x, p)
    {
      TurnOk(ctx, t, h);
      ghost var w := ctx.sibling;
      PaintNephew(x, p, s, s, false, ctx, t);
      ghost var w1 := Make(s, Painted(Child(w, s), false), w.id, w.key, w.red, Child(w, Flip(s)));
      PaintSibling(x, p, s, true, ctx.(sibling := w1), t);
      ghost var c2 := ctx.(sibling := Painted(w1, true));
      ZipAcross(cells, c2, t, x, p);
      Rotate(Get(cells[p], Flip(s)), Flip(s), Across(c2, t), c2.sibling);
      ZipAcross(cells, Across(c2, t), TurnedContext(ctx).sibling, TurnedContext(ctx).sibling.id, p);
    }

    /** A red far nephew turns black as the sibling takes the parent's place. */
    method Repair(x: nat, p: nat, s: Side, ghost ctx: Context, ghost t: Tree, ghost h: int)
      requires Sentinels(cells) && Zip(cells, ctx, t, x, p) && ShortAt(ctx, t, h) && !IsRed(t)
      requires ctx.In? && ctx.sibling.Node? && !ctx.sibling.red && s == ctx.side
      requires IsRed(Child(ctx.sibling, Flip(s)))
      modifies this`cells
      ensures Sentinels(cells) && Elsewhere(old(cells), cells, ContextIds(ctx) + Ids(t))
      ensures ctx.sibling.id < |cells| && p < |cells| && !cells[p].red
      ensures Zip(cells, ctx.up, Repaired(ctx, t), ctx.sibling.id, cells[ctx.sibling.id].parent)
    {
      RepairOk(ctx, t, h);
      PaintSibling(x, p, s, cells[p].red, ctx, t);
      ghost var c1 := ctx.(sibling := Painted(ctx.sibling, ctx.red));
      PaintParent(x, p, false, c1, t);
      ghost var c2 := c1.(red := false);
      PaintNephew(x, p, s, Flip(s), false, c2, t);
      ghost var w := c2.sibling;
      ghost var c3 := c2.(sibling := Make(s, Child(w, s), w.id, w.key, w.red, Painted(Child(w, Flip(s)), false)));
      RotateParent(x, p, s, c3, t);
      ghost var y := ctx.sibling.id;
      ZipDown(cells, ctx.up, Repaired(ctx, t), y, cells[y].parent, s);
    }

    /** The colours of the sibling's children, near and far from `x`. */
    method Nephews(x: nat, p: nat, s: Side, ghost ctx: Context, ghost t: Tree) returns (near: bool, far: bool)
      requires Sentinels(cells) && Zip(cells, ctx, t, x, p) && ctx.In? && ctx.sibling.Node? && s == ctx.side
      ensures near == IsRed(Child(ctx.sibling, s)) && far == IsRed(Child(ctx.sibling, Flip(s)))
    {
      ZipAcross(cells, ctx, t, x, p);
      var w := Get(cells[p], Flip(s));
      ZipDown(cells, Across(ctx, t), ctx.sibling, w, p, s);
      ZipDown(cells, Across(ctx, t), ctx.sibling, w, p, Flip(s));
      near, far := cells[Get(cells[w], s)].red, cells[Get(cells[w], Flip(s))].red;
    }

    /** The last case of RBDeleteFixUp, after which `root` is black. */
    method Finish(x: nat, p: nat, s: Side, root: nat, ghost ctx: Context, ghost t: Tree, ghost h: int)
      returns (ghost result: Tree)
      requires Sentinels(cells) && Zip(cells, ctx, t, x, p) && ShortAt(ctx, t, h) && !IsRed(t) && Anchored(ctx, root)
      requires ctx.sibling.Node? && !ctx.sibling.red && s == ctx.side
      requires IsRed(Child(ctx.sibling, s)) || IsRed(Child(ctx.sibling, Flip(s)))
      modifies this`cells
      ensures Sentinels(cells) && Elsewhere(old(cells), cells, ContextIds(ctx) + Ids(t))
      ensures Whole(cells, result) && RedBlack(result) && Items(result) == Items(Fill(ctx, t))
      ensures root < |cells| && !cells[root].red
    {
      var near, far := Nephews(x, p, s, ctx, t);
      ghost var next := ctx;
      if !far {
        TurnOk(ctx, t, h);
        Turn(x, p, s, ctx, t, h);
        next := TurnedContext(ctx);
        SameSpan(ctx, t, next, t);
      }
      RepairOk(next, t, h);
      Repair(x, p, s, next, t, h);
      ghost var y := next.sibling.id;
      result := Fill(next.up, Repaired(next, t));
      ZipWhole(cells, next.up, Repaired(next, t), y, cells[y].parent);
      if next.up.In? {
        RootIs(cells, next.up, y, cells[y].parent);
      }
    }

    /** Where RBDeleteFixUp stands: at a short node, or done with `x` set to the old root. */
    ghost predicate Fixing(x: nat, root: nat, items: seq<Item>, at: Option<(Context, Tree, int)>, result: Tree)
      reads this
    {
      && Sentinels(cells) && x < |cells|
      && match at
         case Some((ctx, t, h)) =>
           && Zip(cells, ctx, t, x, cells[x].parent) && ShortAt(ctx, t, h) && Items(Fill(ctx, t)) == items
           && (IsRed(t) || cells[ROOT].left == root)
         case None => x == root && !cells[x].red && Whole(cells, result) && RedBlack(result) && Items(result) == items
    }

    /** One turn of RBDeleteFixUp's loop. */
    method FixTurn(x: nat, root: nat, ghost items: seq<Item>, ghost ctx: Context, ghost t: Tree, ghost h: int)
      returns (x': nat, ghost at: Option<(Context, Tree, int)>, ghost result: Tree)
      requires Fixing(x, root, items, Some((ctx, t, h)), Leaf) && !IsRed(t) && x != root
      modifies this`cells
      ensures Fixing(x', root, items, at, result) && Elsewhere(old(cells), cells, ContextIds(ctx) + Ids(t))
      ensures at.Some? ==> IsRed(at.value.1) || Depth(at.value.0) < Depth(ctx)
    {
      assert ctx.In?;
      var p := cells[x].parent;
      SiblingNode(ctx, t, h);
      SideOfHole(cells, ctx, t, x, p);
      RootIs(cells, ctx, x, p);
      var s := if x == cells[p].left then L else R;
      ghost var next := ctx;
      ZipAcross(cells, ctx, t, x, p);
      if cells[Get(cells[p], Flip(s))].red {
        LiftOk(ctx, t, h);
        Lift(x, p, s, ctx, t, h);
        next := LiftedContext(ctx);
        SiblingNode(next, t, h);
        SameSpan(ctx, t, next, t);
      }
      var near, far := Nephews(x, p, s, next, t);
      if !near && !far {
        ShortenOk(next, t, h);
        Shorten(x, p, s, next, t);
        x' := p;
        at, result := Some((next.up, Shortened(next, t), if next.red then h else h + 1)), Leaf;
      } else {
        result := Finish(x, p, s, root, next, t, h);
        x', at := root, None;
      }
    }

    /** RBDeleteFixUp: `x` is short of a black node; `root` is captured before any rotation. */
    method DeleteFixUp(x0: nat, ghost ctx0: Context, ghost t0: Tree, ghost h0: int) returns (ghost result: Tree)
      requires Sentinels(cells) && x0 < |cells| && Zip(cells, ctx0, t0, x0, cells[x0].parent) && ShortAt(ctx0, t0, h0)
      modifies this`cells
      ensures Sentinels(cells) && Whole(cells, result) && RedBlack(result) && Items(result) == Items(Fill(ctx0, t0))
      ensures Elsewhere(old(cells), cells, ContextIds(ctx0) + Ids(t0))
    {
      var x, root := x0, cells[ROOT].left;
      ghost var at, items, ids := Some((ctx0, t0, h0)), Items(Fill(ctx0, t0)), ContextIds(ctx0) + Ids(t0);
      result := Leaf;
      while !cells[x].red && root != x
        invariant Fixing(x, root, items, at, result) && Elsewhere(old(cells), cells, ids)
        decreases if at.None? || IsRed(at.value.1) then 0 else 1 + Depth(at.value.0)
      {
        ghost var (ctx, t, h) := at.value;
        SameSpan(ctx, t, ctx0, t0);
        x, at, result := FixTurn(x, root, items, ctx, t, h);
      }
      if at.Some? {
        SameSpan(at.value.0, at.value.1, ctx0, t0);
      }
      result := Blacken(x, root, items, at, result);
    }

    method Blacken(x: nat, root: nat, ghost items: seq<Item>, ghost at: Option<(Context, Tree, int)>, ghost result: Tree)
      returns (ghost final: Tree)
      requires Fixing(x, root, items, at, result) && (cells[x].red || x == root)
      modifies this`cells
      ensures Sentinels(cells) && Whole(cells, final) && RedBlack(final) && Items(final) == items
      ensures Elsewhere(old(cells), cells, if at.Some? then ContextIds(at.value.0) + Ids(at.value.1) else {})
    {
      ghost var c := cells;
      cells := cells[x := cells[x].(red := false)];
      match at {
        case Some((ctx, t, h)) =>
          if IsRed(t) {
            ShortRedOk(ctx, t, h);
            ZipPaint(c, ctx, t, x, c[x].parent, false);
            ZipWhole(cells, ctx, Painted(t, false), x, c[x].parent);
            final := Fill(ctx, Painted(t, false));
            assert x in Ids(t);
          } else {
            RootAtTop(c, ctx, t, x, c[x].parent);
            assert cells == c;
            final := t;
          }
        case None =>
          assert cells == c;
          final := result;
      }
    }

    /** RBDelete's first part: hangs the only child of `y` in its place, with its parent link set
        even if it is the sentinel. */
    method SpliceOut(y: nat, ghost ctx: Context, ghost t: Tree) returns (x: nat)
      requires Sentinels(cells) && y < |cells| && Zip(cells, ctx, t, y, cells[y].parent)
      requires t.Node? && (t.left.Leaf? || t.right.Leaf?)
      modifies this`cells
      ensures Sentinels(cells) && x < |cells| == old(|cells|) && Zip(cells, ctx, OnlyChild(t), x, cells[x].parent)
      ensures cells[y] == old(cells[y])
    {
      ghost var c := cells;
      var p := cells[y].parent;
      x := if cells[y].left == NIL then cells[y].right else cells[y].left;
      ContextIdsInside(c, ctx, y, p);
      IdsInside(c, t, y, p);
      ZipDown(c, ctx, t, y, p, L);
      ZipDown(c, ctx, t, y, p, R);
      assert y in Ids(t) && (x != NIL ==> x in Ids(OnlyChild(t)));
      if ctx.In? {
        SideOf(c, ctx, t, y, p);
      }
      cells := cells[x := cells[x].(parent := p)];
      cells := cells[p := Put(cells[p], if p == ROOT || y == cells[p].left then L else R, x)];
      ZipSplice(c, cells, ctx, t, y, p, x);
    }

    /** RBDelete's last part: the spliced out `y` takes the place and colour of `z`. */
    method TakePlace(y: nat, z: nat, ghost ctx: Context, ghost t: Tree)
      requires Sentinels(cells) && z < |cells| && Zip(cells, ctx, t, z, cells[z].parent) && t.Node?
      requires 2 <= y < |cells| && y !in ContextIds(ctx) && y !in Ids(t)
      modifies this`cells
      ensures Sentinels(cells) && y < |cells|
      ensures Zip(cells, ctx, t.(id := y, key := old(cells[y].key)), y, cells[y].parent)
    {
      ghost var c := cells;
      var p, l, r := cells[z].parent, cells[z].left, cells[z].right;
      ContextIdsInside(c, ctx, z, p);
      IdsInside(c, t, z, p);
      ZipDown(c, ctx, t, z, p, L);
      ZipDown(c, ctx, t, z, p, R);
      assert z in Ids(t) && (l != NIL ==> l in Ids(t.left)) && (r != NIL ==> r in Ids(t.right));
      if ctx.In? {
        SideOf(c, ctx, t, z, p);
      }
      cells := cells[y := cells[y].(left := l, right := r, parent := p, red := cells[z].red)];
      cells := cells[r := cells[r].(parent := y)];
      cells := cells[l := cells[l].(parent := y)];
      cells := cells[p := Put(cells[p], if z == cells[p].left then L else R, y)];
      ZipReplace(c, cells, ctx, t, z, p, y);
    }

    /** Splices out `y`, which lacks a child, and restores the black heights. */
    method RemoveNode(y: nat, ghost ctx: Context, ghost t: Tree) returns (ghost result: Tree)
      requires Sentinels(cells) && y < |cells| && Zip(cells, ctx, t, y, cells[y].parent) && RedBlack(Fill(ctx, t))
      requires t.Node? && (t.left.Leaf? || t.right.Leaf?)
      modifies this`cells
      ensures Sentinels(cells) && Whole(cells, result) && RedBlack(result)
      ensures Items(result) == Items(Fill(ctx, OnlyChild(t)))
      ensures 2 <= y < |cells| && cells[y] == old(cells[y]) && y !in Ids(result)
    {
      ghost var h := SpliceOk(ctx, t);
      ghost var u := OnlyChild(t);
      IdsInside(cells, t, y, cells[y].parent);
      assert y in Ids(t) && y !in Ids(u) && y !in ContextIds(ctx);
      var x := SpliceOut(y, ctx, t);
      if cells[y].red {
        ZipWhole(cells, ctx, u, x, cells[x].parent);
        result := Fill(ctx, u);
      } else {
        result := DeleteFixUp(x, ctx, u, h);
      }
      SameIds(result, Fill(ctx, u));
      FillIds(ctx, u);
    }

    /** RBDelete: exactly node `z` leaves the tree. */
    method Delete(z: nat)
      requires Valid() && z in Ids(tree)
      modifies this
      ensures Valid() && Removed(Items(old(tree)), Items(tree), z)
    {
      ghost var ctx, t := Locate(cells, Top, tree, cells[ROOT].left, ROOT, z);
      ghost var a, m, b := Before(ctx) + Items(t.left), Item(z, t.key), Items(t.right) + After(ctx);
      ZipDown(cells, ctx, t, z, cells[z].parent, L);
      ZipDown(cells, ctx, t, z, cells[z].parent, R);
      AroundRoot(ctx, t);
      RemovedAt(a, m, b);
      SortedRemove(a, m, b);
      if cells[z].left == NIL || cells[z].right == NIL {
        SpliceItems(ctx, t);
        tree := RemoveNode(z, ctx, t);
      } else {
        DeleteInner(z, ctx, t);
      }
    }

    /** RBDelete of a node with two children: its successor is spliced out, the black heights are
        restored with `z` still in place, and only then does the successor replace it. */
    method DeleteInner(z: nat, ghost ctx: Context, ghost t: Tree)
      requires Sentinels(cells) && z < |cells| && Zip(cells, ctx, t, z, cells[z].parent) && RedBlack(Fill(ctx, t))
      requires t.Node? && t.left.Node? && t.right.Node?
      modifies this
      ensures Sentinels(cells) && Whole(cells, tree) && RedBlack(tree)
      ensures Items(tree) == (Before(ctx) + Items(t.left)) + (Items(t.right) + After(ctx))
    {
      var y;
      ghost var yc, yt;
      ZipDown(cells, ctx, t, z, cells[z].parent, R);
      y, yc, yt := Extreme(cells[z].right, L, Below(ctx, t, R), t.right);
      ghost var a, m := Before(ctx) + Items(t.left), Item(z, t.key);
      ghost var rest := SuccessorItems(ctx, t, yc, yt);
      ghost var mid := RemoveNode(y, yc, yt);
      Substitute(y, z, mid, a, m, rest);
    }

    /** Puts the spliced out `y` where `z` stands. */
    method Substitute(y: nat, z: nat, ghost mid: Tree, ghost a: seq<Item>, ghost m: Item, ghost b: seq<Item>)
      requires Sentinels(cells) && Whole(cells, mid) && RedBlack(mid) && Items(mid) == a + [m] + b && m.id == z
      requires 2 <= y < |cells| && y !in Ids(mid)
      modifies this
      ensures Sentinels(cells) && Whole(cells, tree) && RedBlack(tree)
      ensures Items(tree) == a + [Item(y, old(cells[y].key))] + b
    {
      ghost var key := cells[y].key;
      InMiddle(mid, a, m, b);
      ghost var ctx, t := Locate(cells, Top, mid, cells[ROOT].left, ROOT, z);
      FillIds(ctx, t);
      KeyOfItem(ctx, t, a, m, b);
      RenamedItems(ctx, t, a, b, y, key);
      RenamedRedBlack(ctx, t, y, key);
      TakePlace(y, z, ctx, t);
      ghost var u := t.(id := y, key := key);
      ZipWhole(cells, ctx, u, y, cells[y].parent);
      tree := Fill(ctx, u);
    }

    // ----- queries -----

    /** RBExactQuery: a node with key `q`, with all such nodes in its subtree, or none; the number of steps
        down the tree is logarithmic in its size. */
    method ExactQuery(q: int) returns (r: Option<nat>, ghost ctx: Context, ghost t: Tree, ghost steps: nat)
      requires Valid()
      ensures r.None? ==> forall k :: 0 <= k < |Items(tree)| ==> Items(tree)[k].key != q
      ensures r.Some? ==> Item(r.value, q) in Items(tree)
      ensures Fill(ctx, t) == tree && Under(Before(ctx), q) && Above(After(ctx), q)
      ensures if r.None? then t.Leaf? else t.Node? && t.id == r.value && t.key == q
      ensures var n := |Items(tree)|; Pow2(steps) <= (n + 1) * (n + 1)
    {
      var x: nat := cells[ROOT].left;
      ghost var p: nat := ROOT;
      ctx, t, steps := Top, tree, 0;
      while x != NIL && cells[x].key != q
        invariant steps + Height(t) <= Height(tree)
        invariant Zip(cells, ctx, t, x, p) && Fill(ctx, t) == tree && (t.Node? ==> x < |cells|)
        invariant Under(Before(ctx), q) && Above(After(ctx), q)
        decreases t
      {
        QueryKeys(ctx, t, q);
        var s := if cells[x].key > q then L else R;
        ZipDown(cells, ctx, t, x, p, s);
        ctx, t, p := Below(ctx, t, s), Child(t, s), x;
        x, steps := Get(cells[x], s), steps + 1;
      }
      r := if x == NIL then None else Some(x);
      FillItems(ctx, t);
      Pow2Monotone(steps, Height(tree));
      HeightBound(tree);
    }

    /** RBEnumerate's first loop: the last node with a key not above `high`. */
    method LastAtMost(high: int) returns (best: nat, ghost n: nat)
      requires Valid()
      ensures n <= |Items(tree)| && AtMost(Items(tree)[..n], high) && Above(Items(tree)[n..], high)
      ensures best == LastOf(Items(tree)[..n], NIL)
    {
      var x: nat := cells[ROOT].left;
      best := NIL;
      ghost var p: nat := ROOT;
      ghost var ctx, t := Top, tree;
      while x != NIL
        invariant Zip(cells, ctx, t, x, p) && Fill(ctx, t) == tree && best == LastOf(Before(ctx), NIL)
        invariant AtMost(Before(ctx), high) && Above(After(ctx), high)
        decreases t
      {
        DownKeys(ctx, t, high);
        var s := if cells[x].key > high then L else R;
        ZipDown(cells, ctx, t, x, p, s);
        if s == R {
          best := x;
        }
        ctx, t, p := Below(ctx, t, s), Child(t, s), x;
        x := Get(cells[x], s);
      }
      n := |Before(ctx)|;
      FillItems(ctx, Leaf);
      assert Items(tree)[..n] == Before(ctx) && Items(tree)[n..] == After(ctx);
    }

    /** `x` is the last of the first `i` items, or `NIL` if there are none. */
    ghost predicate StandsAt(x: nat, i: nat)
      reads this
    {
      && i <= |Items(tree)| && x == LastOf(Items(tree)[..i], NIL)
      && (i > 0 ==> 2 <= x < |cells| && x in Ids(tree) && cells[x].key == Items(tree)[i - 1].key)
    }

    lemma LastStands(x: nat, i: nat)
      requires Valid() && i <= |Items(tree)| && x == LastOf(Items(tree)[..i], NIL)
      ensures StandsAt(x, i)
    {
      if i > 0 {
        ItemCell(cells, tree, cells[ROOT].left, ROOT, i - 1);
      }
    }

    /** One item back. */
    method StepBack(x: nat, ghost i: nat) returns (y: nat)
      requires Valid() && i > 0 && StandsAt(x, i)
      ensures StandsAt(y, i - 1)
    {
      y := Predecessor(x);
      PreviousIs(tree, i - 1, y, NIL);
      LastStands(y, i - 1);
    }

    /** RBEnumerate: the stack, top first, holds the nodes with keys in `[low, high]` in order. */
    method Enumerate(low: int, high: int) returns (stack: seq<nat>)
      requires Valid()
      ensures Ranges(Items(tree), stack, low, high)
    {
      var best: nat;
      ghost var n: nat;
      best, n := LastAtMost(high);
      ghost var items, i := Items(tree), n;
      LastStands(best, n);
      stack := [];
      while best != NIL && !(low > cells[best].key)
        invariant 0 <= i <= n && StandsAt(best, i) && stack == IdsOf(items[i..n])
        invariant forall k :: i <= k < n ==> low <= items[k].key
        decreases i
      {
        stack := [best] + stack;
        IdsOfMore(items, i, n);
        best := StepBack(best, i);
        i := i - 1;
      }
      RangeFound(items, i, n, low, high);
    }
  }
}
