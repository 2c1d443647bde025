/** Search trees laid out in cells: pointers are cell numbers, `NIL` and `ROOT` the two sentinels.
    A zipper `(ctx, t)` says where in the tree a pointer stands. */
module TreeCells {
  import opened SearchTrees

  const NIL: nat := 0
  const ROOT: nat := 1

  datatype Cell = Cell(key: int, red: bool, left: nat, right: nat, parent: nat)

  function Get(c: Cell, s: Side): nat {
    if s == L then c.left else c.right
  }

  function Put(c: Cell, s: Side, x: nat): Cell {
    if s == L then c.(left := x) else c.(right := x)
  }

  /** Pointer `x` is the root of `t` under parent `p`. */
  predicate Rep(c: seq<Cell>, t: Tree, x: nat, p: nat) {
    match t
    case Leaf => x == NIL
    case Node(l, id, key, red, r) =>
      && x == id && 2 <= id < |c| && c[id].key == key && c[id].red == red && c[id].parent == p
      && Rep(c, l, c[id].left, id) && Rep(c, r, c[id].right, id)
  }

  /** Pointer `x` fills the hole of `ctx`, under parent `p`. */
  predicate RepContext(c: seq<Cell>, ctx: Context, x: nat, p: nat) {
    match ctx
    case Top => p == ROOT && ROOT < |c| && c[ROOT].left == x
    case In(up, side, id, key, red, sibling) =>
      && p == id && 2 <= id < |c| && c[id].key == key && c[id].red == red && Get(c[id], side) == x
      && Rep(c, sibling, Get(c[id], Flip(side)), id) && RepContext(c, up, id, c[id].parent)
  }

  /** `x` points at subtree `t` in context `ctx`. */
  predicate Zip(c: seq<Cell>, ctx: Context, t: Tree, x: nat, p: nat) {
    && Rep(c, t, x, p) && RepContext(c, ctx, x, p)
    && Distinct(t) && ContextDistinct(ctx) && Ids(t) !! ContextIds(ctx)
  }

  /** The sentinels are black, and nothing hangs on the right of the root sentinel. */
  predicate Sentinels(c: seq<Cell>) {
    |c| >= 2 && !c[NIL].red && !c[ROOT].red && c[ROOT].right == NIL
  }

  lemma {:induction false} IdsInside(c: seq<Cell>, t: Tree, x: nat, p: nat)
    requires Rep(c, t, x, p)
    ensures forall i :: i in Ids(t) ==> 2 <= i < |c|
  {
    if t.Node? {
      IdsInside(c, t.left, c[x].left, x);
      IdsInside(c, t.right, c[x].right, x);
    }
  }

  lemma {:induction false} ContextIdsInside(c: seq<Cell>, ctx: Context, x: nat, p: nat)
    requires RepContext(c, ctx, x, p)
    ensures forall i :: i in ContextIds(ctx) ==> 2 <= i < |c|
    ensures p < |c| && (p == ROOT || p in ContextIds(ctx)) && p != NIL
  {
    if ctx.In? {
      IdsInside(c, ctx.sibling, Get(c[p], Flip(ctx.side)), p);
      ContextIdsInside(c, ctx.up, p, c[p].parent);
    }
  }

  /** Each item is a cell with its key. */
  lemma {:induction false} ItemCell(c: seq<Cell>, t: Tree, x: nat, p: nat, k: nat)
    requires Rep(c, t, x, p) && k < |Items(t)|
    ensures var m := Items(t)[k]; 2 <= m.id < |c| && c[m.id].key == m.key && m.id in Ids(t)
  {
    var n := |Items(t.left)|;
    if k < n {
      ItemCell(c, t.left, c[x].left, x, k);
    } else if k > n {
      ItemCell(c, t.right, c[x].right, x, k - n - 1);
    }
  }

  /** A subtree only depends on its own cells. */
  lemma {:induction false} RepFrame(c: seq<Cell>, d: seq<Cell>, t: Tree, x: nat, p: nat)
    requires Rep(c, t, x, p) && |c| <= |d|
    requires forall i :: i in Ids(t) && i < |c| ==> d[i] == c[i]
    ensures Rep(d, t, x, p)
  {
    if t.Node? {
      assert x in Ids(t);
      RepFrame(c, d, t.left, c[x].left, x);
      RepFrame(c, d, t.right, c[x].right, x);
    }
  }

  lemma {:induction false} ContextFrame(c: seq<Cell>, d: seq<Cell>, ctx: Context, x: nat, p: nat)
    requires RepContext(c, ctx, x, p) && |c| <= |d|
    requires forall i :: (i in ContextIds(ctx) || i == ROOT) && i < |c| ==> d[i] == c[i]
    ensures RepContext(d, ctx, x, p)
  {
    if ctx.In? {
      assert p in ContextIds(ctx);
      RepFrame(c, d, ctx.sibling, Get(c[p], Flip(ctx.side)), p);
      ContextFrame(c, d, ctx.up, p, c[p].parent);
    }
  }

  /** Only the parent link of the subtree's root changes. */
  lemma {:induction false} Reparent(c: seq<Cell>, d: seq<Cell>, t: Tree, x: nat, p: nat, q: nat)
    requires Rep(c, t, x, p) && Distinct(t) && |c| <= |d|
    requires t.Node? ==> d[x] == c[x].(parent := q)
    requires forall i :: i in Ids(t) && i != x && i < |c| ==> d[i] == c[i]
    ensures Rep(d, t, x, q)
  {
    if t.Node? {
      RepFrame(c, d, t.left, c[x].left, x);
      RepFrame(c, d, t.right, c[x].right, x);
    }
  }

  /** Only the link into the hole changes. */
  lemma {:induction false} Relink(c: seq<Cell>, d: seq<Cell>, ctx: Context, x: nat, p: nat, y: nat)
    requires RepContext(c, ctx, x, p) && ContextDistinct(ctx) && |c| <= |d|
    requires p < |c| && d[p] == Put(c[p], if ctx.Top? then L else ctx.side, y)
    requires forall i :: (i in ContextIds(ctx) || i == ROOT) && i != p && i < |c| ==> d[i] == c[i]
    ensures RepContext(d, ctx, y, p)
  {
    if ctx.In? {
      RepFrame(c, d, ctx.sibling, Get(c[p], Flip(ctx.side)), p);
      ContextFrame(c, d, ctx.up, p, c[p].parent);
    }
  }

  // ----- moving a zipper -----

  /** One step towards the root. */
  function Parent(ctx: Context, t: Tree): Tree
    requires ctx.In?
  {
    Make(ctx.side, t, ctx.id, ctx.key, ctx.red, ctx.sibling)
  }

  lemma ZipUp(c: seq<Cell>, ctx: Context, t: Tree, x: nat, p: nat)
    requires Zip(c, ctx, t, x, p) && ctx.In?
    ensures p < |c| && Zip(c, ctx.up, Parent(ctx, t), p, c[p].parent)
  {
    assert Distinct(Parent(ctx, t));
  }

  function Below(ctx: Context, t: Tree, s: Side): Context
    requires t.Node?
  {
    In(ctx, s, t.id, t.key, t.red, Child(t, Flip(s)))
  }

  lemma {:induction false} AroundRoot(ctx: Context, t: Tree)
    requires t.Node?
    ensures Items(Fill(ctx, t)) == (Before(ctx) + Items(t.left)) + [Item(t.id, t.key)] + (Items(t.right) + After(ctx))
  {
    FillItems(ctx, t);
    Regroup(Before(ctx), Items(t.left), [Item(t.id, t.key)], Items(t.right), After(ctx));
  }

  /** Going down by comparing keys keeps the smaller keys before and the greater ones after. */
  lemma DownKeys(ctx: Context, t: Tree, key: int)
    requires t.Node? && Sorted(Items(Fill(ctx, t))) && AtMost(Before(ctx), key) && Above(After(ctx), key)
    ensures var below := Below(ctx, t, if t.key > key then L else R);
      AtMost(Before(below), key) && Above(After(below), key)
  {
    var a, m, b := Before(ctx) + Items(t.left), Item(t.id, t.key), Items(t.right) + After(ctx);
    AroundRoot(ctx, t);
    SortedSplit(a, m, b);
    if t.key > key {
      assert [m] + Items(t.right) + After(ctx) == [m] + b;
    }
  }

  lemma ZipDown(c: seq<Cell>, ctx: Context, t: Tree, x: nat, p: nat, s: Side)
    requires Zip(c, ctx, t, x, p) && t.Node?
    ensures x < |c| && Zip(c, Below(ctx, t, s), Child(t, s), Get(c[x], s), x)
  {
  }

  /** From a node to its sibling. */
  function Across(ctx: Context, t: Tree): Context
    requires ctx.In?
  {
    In(ctx.up, Flip(ctx.side), ctx.id, ctx.key, ctx.red, t)
  }

  lemma ZipAcross(c: seq<Cell>, ctx: Context, t: Tree, x: nat, p: nat)
    requires Zip(c, ctx, t, x, p) && ctx.In?
    ensures p < |c| && Zip(c, Across(ctx, t), ctx.sibling, Get(c[p], Flip(ctx.side)), p)
  {
  }

  /** Which side of its parent `x` hangs on, as the code finds out. */
  lemma SideOf(c: seq<Cell>, ctx: Context, t: Tree, x: nat, p: nat)
    requires Zip(c, ctx, t, x, p) && t.Node? && ctx.In?
    ensures p < |c| && Get(c[p], Flip(ctx.side)) != x
  {
    assert ctx.sibling.Node? ==> ctx.sibling.id in Ids(ctx.sibling);
    assert x in Ids(t);
  }

  /** The same for a possibly empty `x` whose sibling is a node. */
  lemma SideOfHole(c: seq<Cell>, ctx: Context, t: Tree, x: nat, p: nat)
    requires Zip(c, ctx, t, x, p) && ctx.In? && ctx.sibling.Node?
    ensures p < |c| && (x == c[p].left <==> ctx.side == L)
  {
    assert ctx.sibling.id in Ids(ctx.sibling);
    assert t.Node? ==> x in Ids(t);
  }

  /** The root of the tree around a hole. */
  function RootId(ctx: Context): nat
    requires ctx.In?
  {
    if ctx.up.Top? then ctx.id else RootId(ctx.up)
  }

  lemma {:induction false} RootIs(c: seq<Cell>, ctx: Context, x: nat, p: nat)
    requires RepContext(c, ctx, x, p) && ctx.In?
    ensures ROOT < |c| && c[ROOT].left == RootId(ctx) && RootId(ctx) in ContextIds(ctx) && RootId(ctx) < |c|
    ensures ContextColoured(ctx) ==> !c[RootId(ctx)].red
  {
    if ctx.up.In? {
      RootIs(c, ctx.up, p, c[p].parent);
    }
  }

  /** A pointer that is the root stands at the top. */
  lemma RootAtTop(c: seq<Cell>, ctx: Context, t: Tree, x: nat, p: nat)
    requires Zip(c, ctx, t, x, p) && ROOT < |c| && c[ROOT].left == x
    ensures ctx.Top?
  {
    if ctx.In? {
      RootIs(c, ctx, x, p);
      ContextIdsInside(c, ctx, x, p);
    }
  }

  /** The whole tree hangs on the left of the root sentinel. */
  predicate Whole(c: seq<Cell>, t: Tree) {
    ROOT < |c| && Zip(c, Top, t, c[ROOT].left, ROOT)
  }

  lemma {:induction false} ZipWhole(c: seq<Cell>, ctx: Context, t: Tree, x: nat, p: nat)
    requires Zip(c, ctx, t, x, p)
    ensures Whole(c, Fill(ctx, t))
    decreases ctx
  {
    if ctx.In? {
      ZipUp(c, ctx, t, x, p);
      ZipWhole(c, ctx.up, Parent(ctx, t), p, c[p].parent);
    }
  }

  /** Every node of the tree can be pointed at. */
  lemma {:induction false} Locate(c: seq<Cell>, ctx: Context, t: Tree, x: nat, p: nat, z: nat)
    returns (ctx': Context, t': Tree)
    requires Zip(c, ctx, t, x, p) && z in Ids(t)
    ensures t'.Node? && t'.id == z && z < |c| && Zip(c, ctx', t', z, c[z].parent)
    ensures Fill(ctx', t') == Fill(ctx, t)
    decreases t
  {
    if t.id == z {
      ctx', t' := ctx, t;
    } else {
      var s := if z in Ids(t.left) then L else R;
      ZipDown(c, ctx, t, x, p, s);
      ctx', t' := Locate(c, Below(ctx, t, s), Child(t, s), Get(c[x], s), x, z);
    }
  }

  // ----- changing cells under a zipper -----

  lemma ZipPaint(c: seq<Cell>, ctx: Context, t: Tree, x: nat, p: nat, red: bool)
    requires Zip(c, ctx, t, x, p) && t.Node?
    ensures x < |c| && Zip(c[x := c[x].(red := red)], ctx, Painted(t, red), x, p)
  {
    var d := c[x := c[x].(red := red)];
    ContextIdsInside(c, ctx, x, p);
    RepFrame(c, d, t.left, c[x].left, x);
    RepFrame(c, d, t.right, c[x].right, x);
    ContextFrame(c, d, ctx, x, p);
  }

  lemma ZipPaintParent(c: seq<Cell>, ctx: Context, t: Tree, x: nat, p: nat, red: bool)
    requires Zip(c, ctx, t, x, p) && ctx.In?
    ensures p < |c| && Zip(c[p := c[p].(red := red)], ctx.(red := red), t, x, p)
  {
    ZipUp(c, ctx, t, x, p);
    ZipPaint(c, ctx.up, Parent(ctx, t), p, c[p].parent, red);
    ZipDown(c[p := c[p].(red := red)], ctx.up, Painted(Parent(ctx, t), red), p, c[p].parent, ctx.side);
  }

  /** `t` rotated towards side `s`. */
  function Rotated(t: Tree, s: Side): Tree
    requires t.Node? && Child(t, Flip(s)).Node?
  {
    var y := Child(t, Flip(s));
    Make(s, Make(s, Child(t, s), t.id, t.key, t.red, Child(y, s)), y.id, y.key, y.red, Child(y, Flip(s)))
  }

  lemma {:induction false} RotatedItems(t: Tree, s: Side)
    requires t.Node? && Child(t, Flip(s)).Node?
    ensures Items(Rotated(t, s)) == Items(t) && Ids(Rotated(t, s)) == Ids(t)
  {
    var y := Child(t, Flip(s));
    var a, b, d := Items(Child(t, s)), Items(Child(y, s)), Items(Child(y, Flip(s)));
    var i, j := [Item(t.id, t.key)], [Item(y.id, y.key)];
    if s == L {
      assert a + i + (b + j + d) == (a + i + b) + j + d;
    } else {
      assert (d + j + b) + i + a == d + j + (b + i + a);
    }
  }

  lemma {:induction false} RotatedDistinct(t: Tree, s: Side)
    requires t.Node? && Child(t, Flip(s)).Node? && Distinct(t)
    ensures Distinct(Rotated(t, s))
  {
    var y := Child(t, Flip(s));
    assert Distinct(y) && y.id in Ids(y) && Ids(Child(y, s)) <= Ids(y) && Ids(Child(y, Flip(s))) <= Ids(y);
    var x := Make(s, Child(t, s), t.id, t.key, t.red, Child(y, s));
    assert Distinct(x);
  }

  /** The cells a rotation at `x` touches, before (`c`) and after (`d`). */
  predicate RotatesCells(c: seq<Cell>, d: seq<Cell>, x: nat, y: nat, b: nat, p: nat, s: Side, ps: Side) {
    && |d| == |c| && x < |c| && y < |c| && b < |c| && p < |c|
    && d[x] == Put(c[x], Flip(s), b).(parent := y)
    && d[y] == Put(c[y], s, x).(parent := p)
    && (b != NIL ==> d[b] == c[b].(parent := x))
    && d[p] == Put(c[p], ps, y)
    && forall i :: 0 <= i < |c| && i != x && i != y && i != p && (i != b || b == NIL) ==> d[i] == c[i]
  }

  /** The pointers around `x` allow a rotation towards `s`. */
  predicate Rotatable(c: seq<Cell>, x: nat, s: Side, ps: Side) {
    && x < |c| && c[x].parent < |c| && Get(c[x], Flip(s)) < |c| && Get(c[Get(c[x], Flip(s))], s) < |c|
    && var p, y := c[x].parent, Get(c[x], Flip(s));
    && var b := Get(c[y], s);
    && x != y && x != p && y != p && b != x && b != y && b != p
    && Get(c[p], ps) == x && (ps == R ==> c[p].left != x)
  }

  /** The six pointer updates of a rotation. */
  function RotateCells(c: seq<Cell>, x: nat, s: Side): seq<Cell>
    requires exists ps :: Rotatable(c, x, s, ps)
  {
    var y := Get(c[x], Flip(s));
    var b := Get(c[y], s);
    var c1 := c[x := Put(c[x], Flip(s), b)];
    var c2 := if b != NIL then c1[b := c1[b].(parent := x)] else c1;
    var p := c2[x].parent;
    var c3 := c2[y := c2[y].(parent := p)];
    var c4 := c3[p := Put(c3[p], if x == c3[p].left then L else R, y)];
    var c5 := c4[y := Put(c4[y], s, x)];
    c5[x := c5[x].(parent := y)]
  }

  lemma RotateCellsOk(c: seq<Cell>, x: nat, s: Side, ps: Side)
    requires Rotatable(c, x, s, ps)
    ensures var p, y := c[x].parent, Get(c[x], Flip(s));
      RotatesCells(c, RotateCells(c, x, s), x, y, Get(c[y], s), p, s, ps)
  {
    var p, y := c[x].parent, Get(c[x], Flip(s));
    var b := Get(c[y], s);
    var d := RotateCells(c, x, s);
    assert d[x] == Put(c[x], Flip(s), b).(parent := y);
    assert d[y] == Put(c[y], s, x).(parent := p);
    assert b != NIL ==> d[b] == c[b].(parent := x);
    assert d[p] == Put(c[p], ps, y);
  }

  /** What the pointers around a rotation are. */
  lemma RotationCells(c: seq<Cell>, ctx: Context, t: Tree, x: nat, p: nat, s: Side) returns (y: nat, b: nat)
    requires Zip(c, ctx, t, x, p) && t.Node? && Child(t, Flip(s)).Node?
    ensures x < |c| && p < |c| && y == Get(c[x], Flip(s)) < |c| && b == Get(c[y], s) < |c|
    ensures x != y && x != p && y != p && b != x && b != y && b != p
    ensures x >= 2 && y >= 2 && c[x].parent == p && (p == ROOT || p in ContextIds(ctx))
    ensures x in Ids(t) && y in Ids(t) && (b != NIL ==> b in Ids(t))
    ensures Rotatable(c, x, s, if ctx.Top? then L else ctx.side)
  {
    ContextIdsInside(c, ctx, x, p);
    IdsInside(c, t, x, p);
    ZipDown(c, ctx, t, x, p, Flip(s));
    var u, below := Child(t, Flip(s)), Below(ctx, t, Flip(s));
    y := Get(c[x], Flip(s));
    ZipDown(c, below, u, y, x, s);
    b := Get(c[y], s);
    assert y in Ids(u) && x in ContextIds(below);
    assert b != NIL ==> b in Ids(Child(u, s));
    if ctx.In? {
      SideOf(c, ctx, t, x, p);
    }
  }

  lemma {:induction false} RotateRep(c: seq<Cell>, d: seq<Cell>, ctx: Context, t: Tree, x: nat, p: nat, s: Side, y: nat, b: nat, ps: Side)
    requires Zip(c, ctx, t, x, p) && t.Node? && Child(t, Flip(s)).Node?
    requires x < |c| && y == Get(c[x], Flip(s)) < |c| && b == Get(c[y], s) && (p == ROOT || p in ContextIds(ctx))
    requires RotatesCells(c, d, x, y, b, p, s, ps)
    ensures Rep(d, Rotated(t, s), y, p)
  {
    IdsInside(c, t, x, p);
    var u, below := Child(t, Flip(s)), Below(ctx, t, Flip(s));
    ZipDown(c, ctx, t, x, p, Flip(s));
    ZipDown(c, below, u, y, x, s);
    assert x in Ids(t) && y in Ids(u) && (b != NIL ==> b in Ids(Child(u, s)));
    RepFrame(c, d, Child(t, s), Get(c[x], s), x);
    Reparent(c, d, Child(u, s), b, y, x);
    RepFrame(c, d, Child(u, Flip(s)), Get(c[y], Flip(s)), y);
    assert Rep(d, Make(s, Child(t, s), t.id, t.key, t.red, Child(u, s)), x, y);
  }

  lemma ZipRotate(c: seq<Cell>, d: seq<Cell>, ctx: Context, t: Tree, x: nat, p: nat, s: Side, y: nat, b: nat)
    requires Zip(c, ctx, t, x, p) && t.Node? && Child(t, Flip(s)).Node?
    requires x < |c| && y == Get(c[x], Flip(s)) < |c| && b == Get(c[y], s)
    requires RotatesCells(c, d, x, y, b, p, s, if ctx.Top? then L else ctx.side)
    ensures Zip(d, ctx, Rotated(t, s), y, p)
  {
    ContextIdsInside(c, ctx, x, p);
    RotateRep(c, d, ctx, t, x, p, s, y, b, if ctx.Top? then L else ctx.side);
    RotatedItems(t, s);
    RotatedDistinct(t, s);
    IdsInside(c, t, x, p);
    assert b != NIL ==> b in Ids(t) by {
      ZipDown(c, ctx, t, x, p, Flip(s));
      ZipDown(c, Below(ctx, t, Flip(s)), Child(t, Flip(s)), y, x, s);
    }
    assert x in Ids(t) && y in Ids(t);
    Relink(c, d, ctx, x, p, y);
  }

  /** Hanging a new leaf node into an empty hole. */
  lemma ZipAttach(c: seq<Cell>, d: seq<Cell>, ctx: Context, p: nat, key: int, red: bool)
    requires Zip(c, ctx, Leaf, NIL, p) && |d| == |c| + 1 && p < |c|
    requires d[|c|] == Cell(key, red, NIL, NIL, p) && |c| >= 2
    requires d[p] == Put(c[p], if ctx.Top? then L else ctx.side, |c|)
    requires forall i :: 0 <= i < |c| && i != p ==> d[i] == c[i]
    ensures Zip(d, ctx, Node(Leaf, |c|, key, red, Leaf), |c|, p)
  {
    ContextIdsInside(c, ctx, NIL, p);
    Relink(c, d, ctx, NIL, p, |c|);
  }

  /** The only child, if any, of a node that lacks one. */
  function OnlyChild(t: Tree): Tree
    requires t.Node?
  {
    if t.left.Leaf? then t.right else t.left
  }

  /** Hanging the only child `x` of a node in the node's place. */
  lemma ZipSplice(c: seq<Cell>, d: seq<Cell>, ctx: Context, t: Tree, y: nat, p: nat, x: nat)
    requires Sentinels(c) && Zip(c, ctx, t, y, p) && t.Node? && (t.left.Leaf? || t.right.Leaf?)
    requires y < |c| && x == (if c[y].left == NIL then c[y].right else c[y].left) && p < |c| && x < |c| == |d|
    requires x != p && d[x] == c[x].(parent := p) && d[p] == Put(c[p], if ctx.Top? then L else ctx.side, x)
    requires forall i :: 0 <= i < |c| && i != x && i != p ==> d[i] == c[i]
    ensures Sentinels(d) && Zip(d, ctx, OnlyChild(t), x, p)
  {
    ContextIdsInside(c, ctx, y, p);
    ZipDown(c, ctx, t, y, p, L);
    ZipDown(c, ctx, t, y, p, R);
    assert Rep(c, OnlyChild(t), x, y) && Distinct(OnlyChild(t)) && Ids(OnlyChild(t)) <= Ids(t);
    IdsInside(c, OnlyChild(t), x, y);
    Reparent(c, d, OnlyChild(t), x, y, p);
    Relink(c, d, ctx, y, p, x);
  }

  /** Cell `y`, from outside the tree, takes the place of node `z`. */
  lemma {:induction false} ZipReplace(c: seq<Cell>, d: seq<Cell>, ctx: Context, t: Tree, z: nat, p: nat, y: nat)
    requires Sentinels(c) && Zip(c, ctx, t, z, p) && t.Node? && p < |c| == |d| && z < |c|
    requires 2 <= y < |c| && y !in ContextIds(ctx) && y !in Ids(t) && c[z].left < |c| && c[z].right < |c|
    requires d[y] == c[z].(key := c[y].key) && d[p] == Put(c[p], if ctx.Top? then L else ctx.side, y)
    requires c[z].left != NIL ==> d[c[z].left] == c[c[z].left].(parent := y)
    requires c[z].right != NIL ==> d[c[z].right] == c[c[z].right].(parent := y)
    requires d[NIL].red == c[NIL].red
    requires forall i :: 0 <= i < |c| && i != y && i != p && i != c[z].left && i != c[z].right ==> d[i] == c[i]
    ensures Sentinels(d) && Zip(d, ctx, t.(id := y, key := c[y].key), y, p)
  {
    ContextIdsInside(c, ctx, z, p);
    ZipDown(c, ctx, t, z, p, L);
    ZipDown(c, ctx, t, z, p, R);
    IdsInside(c, t, z, p);
    assert t.left.Node? ==> c[z].left in Ids(t.left);
    assert t.right.Node? ==> c[z].right in Ids(t.right);
    Reparent(c, d, t.left, c[z].left, z, y);
    Reparent(c, d, t.right, c[z].right, z, y);
    Relink(c, d, ctx, z, p, y);
  }
}
