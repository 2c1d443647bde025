/** Red-black search trees as values: a tree, and the context around a subtree. Left and right are
    interchangeable in every argument, so most definitions take a side. */
module SearchTrees {

  datatype Side = L | R

  function Flip(s: Side): Side {
    if s == L then R else L
  }

  /** Nodes carry the identity of the cell that holds them. */
  datatype Tree = Leaf | Node(left: Tree, id: nat, key: int, red: bool, right: Tree)

  datatype Item = Item(id: nat, key: int)

  /** A tree with a hole on side `side` of its last node; `Top` is the bare hole. */
  datatype Context = Top | In(up: Context, side: Side, id: nat, key: int, red: bool, sibling: Tree)

  /** A node with `near` on side `s`. */
  function Make(s: Side, near: Tree, id: nat, key: int, red: bool, far: Tree): Tree {
    if s == L then Node(near, id, key, red, far) else Node(far, id, key, red, near)
  }

  function Child(t: Tree, s: Side): Tree
    requires t.Node?
  {
    if s == L then t.left else t.right
  }

  function Fill(ctx: Context, t: Tree): Tree {
    match ctx
    case Top => t
    case In(up, side, id, key, red, sibling) => Fill(up, Make(side, t, id, key, red, sibling))
  }

  // ----- contents -----

  function Items(t: Tree): seq<Item> {
    match t
    case Leaf => []
    case Node(l, id, key, _, r) => Items(l) + [Item(id, key)] + Items(r)
  }

  /** What comes before and after the hole. */
  function Before(ctx: Context): seq<Item> {
    match ctx
    case Top => []
    case In(up, side, id, key, _, sibling) =>
      if side == L then Before(up) else Before(up) + Items(sibling) + [Item(id, key)]
  }

  function After(ctx: Context): seq<Item> {
    match ctx
    case Top => []
    case In(up, side, id, key, _, sibling) =>
      if side == L then [Item(id, key)] + Items(sibling) + After(up) else After(up)
  }

  lemma {:induction false} FillItems(ctx: Context, t: Tree)
    ensures Items(Fill(ctx, t)) == Before(ctx) + Items(t) + After(ctx)
  {
    if ctx.In? {
      FillItems(ctx.up, Make(ctx.side, t, ctx.id, ctx.key, ctx.red, ctx.sibling));
      var m, s := [Item(ctx.id, ctx.key)], Items(ctx.sibling);
      if ctx.side == L {
        Regroup(Before(ctx.up), Items(t), m, s, After(ctx.up));
      } else {
        Regroup(Before(ctx.up), s, m, Items(t), After(ctx.up));
      }
    }
  }

  lemma Regroup(a: seq<Item>, l: seq<Item>, m: seq<Item>, r: seq<Item>, b: seq<Item>)
    ensures a + (l + m + r) + b == (a + l) + m + (r + b)
    ensures a + (l + m + r) + b == (a + l + m) + r + b
    ensures a + (l + m + r) + b == a + l + (m + r + b)
  {
  }

  // ----- order -----

  ghost predicate Sorted(items: seq<Item>) {
    forall i, j :: 0 <= i < j < |items| ==> items[i].key <= items[j].key
  }

  ghost predicate AtMost(items: seq<Item>, key: int) {
    forall i :: 0 <= i < |items| ==> items[i].key <= key
  }

  ghost predicate Above(items: seq<Item>, key: int) {
    forall i :: 0 <= i < |items| ==> items[i].key > key
  }

  /** The middle of a sorted sequence bounds both ends. */
  lemma SortedSplit(a: seq<Item>, m: Item, b: seq<Item>)
    requires Sorted(a + [m] + b)
    ensures AtMost(a, m.key) && forall i :: 0 <= i < |b| ==> b[i].key >= m.key
  {
    var s := a + [m] + b;
    assert s[|a|] == m;
    forall i | 0 <= i < |a| ensures a[i].key <= m.key {
      assert s[i] == a[i];
    }
    forall i | 0 <= i < |b| ensures b[i].key >= m.key {
      assert s[|a| + 1 + i] == b[i];
    }
  }

  /** Inserting a key between the smaller and the greater ones. */
  lemma SortedInsert(a: seq<Item>, m: Item, b: seq<Item>)
    requires Sorted(a + b) && AtMost(a, m.key) && Above(b, m.key)
    ensures Sorted(a + [m] + b)
  {
    var s, r := a + b, a + [m] + b;
    forall i, j | 0 <= i < j < |r| ensures r[i].key <= r[j].key {
      var k, l := if i <= |a| then i else i - 1, if j <= |a| then j else j - 1;
      if i != |a| && j != |a| {
        assert r[i] == s[k] && r[j] == s[l];
      }
    }
  }

  /** `now` is `was` with `m` put after every key not greater than its own. */
  ghost predicate Inserted(was: seq<Item>, now: seq<Item>, m: Item) {
    exists k :: 0 <= k <= |was| && now == was[..k] + [m] + was[k..] && AtMost(was[..k], m.key) && Above(was[k..], m.key)
  }

  lemma InsertedAt(a: seq<Item>, m: Item, b: seq<Item>)
    requires AtMost(a, m.key) && Above(b, m.key)
    ensures Inserted(a + b, a + [m] + b, m)
  {
    var was := a + b;
    assert was[..|a|] == a && was[|a|..] == b;
  }

  /** `now` is `was` without the item `z`. */
  ghost predicate Removed(was: seq<Item>, now: seq<Item>, z: nat) {
    exists k :: 0 <= k < |was| && was[k].id == z && now == was[..k] + was[k + 1..]
  }

  lemma RemovedAt(a: seq<Item>, m: Item, b: seq<Item>)
    ensures Removed(a + [m] + b, a + b, m.id)
  {
    var was := a + [m] + b;
    assert was[|a|] == m && was[..|a|] == a && was[|a| + 1..] == b;
  }

  /** Removing an element keeps the order. */
  lemma SortedRemove(a: seq<Item>, m: Item, b: seq<Item>)
    requires Sorted(a + [m] + b)
    ensures Sorted(a + b)
  {
    var s, r := a + [m] + b, a + b;
    forall i, j | 0 <= i < j < |r| ensures r[i].key <= r[j].key {
      assert r[i] == s[if i < |a| then i else i + 1] && r[j] == s[if j < |a| then j else j + 1];
    }
  }

  /** Item `k` is `x`, and `y` the next one, if any. */
  ghost predicate NextOf(items: seq<Item>, k: nat, x: nat, y: nat, none: nat) {
    k < |items| && items[k].id == x && y == if k + 1 < |items| then items[k + 1].id else none
  }

  /** `y` comes right after `x`, or is `none` if `x` is last. */
  ghost predicate Next(items: seq<Item>, x: nat, y: nat, none: nat) {
    exists k :: NextOf(items, k, x, y, none)
  }

  ghost predicate PreviousOf(items: seq<Item>, k: nat, x: nat, y: nat, none: nat) {
    k < |items| && items[k].id == x && y == if k > 0 then items[k - 1].id else none
  }

  /** `y` comes right before `x`, or is `none` if `x` is first. */
  ghost predicate Previous(items: seq<Item>, x: nat, y: nat, none: nat) {
    exists k :: PreviousOf(items, k, x, y, none)
  }

  function FirstOf(items: seq<Item>, none: nat): nat {
    if items == [] then none else items[0].id
  }

  function LastOf(items: seq<Item>, none: nat): nat {
    if items == [] then none else items[|items| - 1].id
  }

  lemma NextAt(a: seq<Item>, m: Item, b: seq<Item>, none: nat)
    ensures Next(a + [m] + b, m.id, FirstOf(b, none), none)
    ensures Previous(a + [m] + b, m.id, LastOf(a, none), none)
  {
    var s := a + [m] + b;
    assert NextOf(s, |a|, m.id, FirstOf(b, none), none);
    assert PreviousOf(s, |a|, m.id, LastOf(a, none), none);
  }

  function IdsOf(items: seq<Item>): seq<nat> {
    if items == [] then [] else [items[0].id] + IdsOf(items[1..])
  }

  /** `ids` lists the items with keys in `[low, high]`, in order. */
  ghost predicate Ranges(items: seq<Item>, ids: seq<nat>, low: int, high: int) {
    exists i, n :: 0 <= i <= n <= |items| && ids == IdsOf(items[i..n]) && Between(items, i, n, low, high)
  }

  /** Exactly the items from `i` to `n` have keys in `[low, high]`. */
  ghost predicate Between(items: seq<Item>, i: nat, n: nat, low: int, high: int)
    requires i <= n <= |items|
  {
    forall k :: 0 <= k < |items| ==> (i <= k < n <==> low <= items[k].key <= high)
  }

  lemma RangeFound(items: seq<Item>, i: nat, n: nat, low: int, high: int)
    requires Sorted(items) && i <= n <= |items| && AtMost(items[..n], high) && Above(items[n..], high)
    requires i > 0 ==> items[i - 1].key < low
    requires forall k :: i <= k < n ==> low <= items[k].key
    ensures Ranges(items, IdsOf(items[i..n]), low, high)
  {
    forall k | 0 <= k < |items| ensures i <= k < n <==> low <= items[k].key <= high {
      assert k < n ==> items[k] == items[..n][k];
      assert k >= n ==> items[k] == items[n..][k - n];
      assert k < i - 1 ==> items[k].key <= items[i - 1].key;
    }
    assert Between(items, i, n, low, high);
  }

  lemma IdsOfMore(items: seq<Item>, i: nat, n: nat)
    requires 0 < i <= n <= |items|
    ensures IdsOf(items[i - 1..n]) == [items[i - 1].id] + IdsOf(items[i..n])
  {
    assert items[i - 1..n][1..] == items[i..n];
  }

  // ----- identities -----

  function Ids(t: Tree): set<nat> {
    match t
    case Leaf => {}
    case Node(l, id, _, _, r) => Ids(l) + {id} + Ids(r)
  }

  function ContextIds(ctx: Context): set<nat> {
    match ctx
    case Top => {}
    case In(up, _, id, _, _, sibling) => ContextIds(up) + {id} + Ids(sibling)
  }

  lemma {:induction false} ItemIds(t: Tree)
    ensures forall k :: 0 <= k < |Items(t)| ==> Items(t)[k].id in Ids(t)
  {
    if t.Node? {
      ItemIds(t.left);
      ItemIds(t.right);
    }
  }

  /** The identities are those of the items. */
  lemma {:induction false} IdHasItem(t: Tree, x: nat) returns (k: nat)
    requires x in Ids(t)
    ensures k < |Items(t)| && Items(t)[k].id == x
  {
    if x == t.id {
      k := |Items(t.left)|;
    } else if x in Ids(t.left) {
      k := IdHasItem(t.left, x);
    } else {
      k := IdHasItem(t.right, x);
      k := |Items(t.left)| + 1 + k;
    }
  }

  lemma {:induction false} SameIds(t: Tree, u: Tree)
    requires Items(t) == Items(u)
    ensures Ids(t) == Ids(u)
  {
    ItemIds(t);
    ItemIds(u);
    forall x ensures x in Ids(t) <==> x in Ids(u) {
      if x in Ids(t) {
        var k := IdHasItem(t, x);
      }
      if x in Ids(u) {
        var k := IdHasItem(u, x);
      }
    }
  }

  /** No identity occurs twice. */
  predicate Distinct(t: Tree) {
    match t
    case Leaf => true
    case Node(l, id, _, _, r) =>
      id !in Ids(l) && id !in Ids(r) && Ids(l) !! Ids(r) && Distinct(l) && Distinct(r)
  }

  predicate ContextDistinct(ctx: Context) {
    match ctx
    case Top => true
    case In(up, _, id, _, _, sibling) =>
      && id !in Ids(sibling) && id !in ContextIds(up) && Ids(sibling) !! ContextIds(up)
      && Distinct(sibling) && ContextDistinct(up)
  }

  lemma {:induction false} FillIds(ctx: Context, t: Tree)
    ensures Ids(Fill(ctx, t)) == ContextIds(ctx) + Ids(t)
  {
    if ctx.In? {
      FillIds(ctx.up, Make(ctx.side, t, ctx.id, ctx.key, ctx.red, ctx.sibling));
    }
  }

  /** In a tree without repeated identities an item is known by its identity. */
  lemma {:induction false} ItemsUnique(t: Tree, j: nat, k: nat)
    requires Distinct(t) && j < k < |Items(t)|
    ensures Items(t)[j].id != Items(t)[k].id
  {
    var n := |Items(t.left)|;
    ItemIds(t.left);
    ItemIds(t.right);
    if k < n {
      ItemsUnique(t.left, j, k);
    } else if j > n {
      ItemsUnique(t.right, j - n - 1, k - n - 1);
    }
  }

  lemma {:induction false} PreviousIs(t: Tree, i: nat, y: nat, none: nat)
    requires Distinct(t) && i < |Items(t)| && Previous(Items(t), Items(t)[i].id, y, none)
    ensures y == LastOf(Items(t)[..i], none)
  {
    var k: nat :| PreviousOf(Items(t), k, Items(t)[i].id, y, none);
    if k < i {
      ItemsUnique(t, k, i);
    } else if i < k {
      ItemsUnique(t, i, k);
    }
  }

  // ----- colours and black heights -----

  predicate IsRed(t: Tree) {
    t.Node? && t.red
  }

  function Painted(t: Tree, red: bool): Tree {
    if t.Leaf? then t else t.(red := red)
  }

  /** Every path to a leaf passes `h` black nodes. */
  predicate Level(t: Tree, h: int) {
    match t
    case Leaf => h == 0
    case Node(l, _, _, red, r) => Level(l, if red then h else h - 1) && Level(r, if red then h else h - 1)
  }

  /** No red node has a red child. */
  predicate Coloured(t: Tree) {
    match t
    case Leaf => true
    case Node(l, _, _, red, r) => (red ==> !IsRed(l) && !IsRed(r)) && Coloured(l) && Coloured(r)
  }

  ghost predicate RedBlack(t: Tree) {
    Coloured(t) && !IsRed(t) && exists h :: Level(t, h)
  }

  /** The hole wants a tree of level `h`. */
  predicate ContextLevel(ctx: Context, h: int) {
    match ctx
    case Top => true
    case In(up, _, _, _, red, sibling) => Level(sibling, h) && ContextLevel(up, if red then h else h + 1)
  }

  predicate ContextRed(ctx: Context) {
    ctx.In? && ctx.red
  }

  /** Colours are right around the hole, and the root, if any, is black. */
  predicate ContextColoured(ctx: Context) {
    match ctx
    case Top => true
    case In(up, _, _, _, red, sibling) =>
      && (red ==> up.In? && !up.red && !IsRed(sibling))
      && Coloured(sibling) && ContextColoured(up)
  }

  /** A fitting tree in a fitting hole is a red-black tree. */
  lemma {:induction false} FillRedBlack(ctx: Context, t: Tree, h: int)
    requires Coloured(t) && Level(t, h) && ContextColoured(ctx) && ContextLevel(ctx, h)
    requires IsRed(t) ==> ctx.In? && !ContextRed(ctx)
    ensures RedBlack(Fill(ctx, t))
  {
    if ctx.In? {
      var up := Make(ctx.side, t, ctx.id, ctx.key, ctx.red, ctx.sibling);
      FillRedBlack(ctx.up, up, if ctx.red then h else h + 1);
    }
  }

  /** And every subtree of a red-black tree fits its context. */
  lemma {:induction false} Unfill(ctx: Context, t: Tree) returns (h: int)
    requires RedBlack(Fill(ctx, t))
    ensures Coloured(t) && Level(t, h) && ContextColoured(ctx) && ContextLevel(ctx, h)
    ensures IsRed(t) ==> ctx.In? && !ContextRed(ctx)
  {
    if ctx.Top? {
      h :| Level(t, h);
    } else {
      h := Unfill(ctx.up, Make(ctx.side, t, ctx.id, ctx.key, ctx.red, ctx.sibling));
      h := if ctx.red then h else h - 1;
    }
  }

  lemma {:induction false} LevelNonNegative(t: Tree, h: int)
    requires Level(t, h)
    ensures h >= 0
  {
    if t.Node? {
      LevelNonNegative(t.left, if t.red then h else h - 1);
    }
  }

  // ----- the height bound -----

  function Height(t: Tree): nat {
    match t
    case Leaf => 0
    case Node(l, _, _, _, r) => 1 + if Height(l) > Height(r) then Height(l) else Height(r)
  }

  function Pow2(n: nat): nat {
    if n == 0 then 1 else 2 * Pow2(n - 1)
  }

  lemma {:induction false} LevelSize(t: Tree, h: nat)
    requires Level(t, h)
    ensures Pow2(h) <= |Items(t)| + 1
    decreases t
  {
    if t.Node? {
      LevelNonNegative(t.left, if t.red then h else h - 1);
      LevelSize(t.left, if t.red then h else h - 1);
      LevelSize(t.right, if t.red then h else h - 1);
    }
  }

  lemma {:induction false} LevelHeight(t: Tree, h: int)
    requires Level(t, h) && Coloured(t)
    ensures Height(t) <= 2 * h + if IsRed(t) then 1 else 0
  {
    if t.Node? {
      LevelHeight(t.left, if t.red then h else h - 1);
      LevelHeight(t.right, if t.red then h else h - 1);
    }
  }

  lemma {:induction false} Pow2Sum(a: nat, b: nat)
    ensures Pow2(a + b) == Pow2(a) * Pow2(b)
  {
    if a > 0 {
      Pow2Sum(a - 1, b);
    }
  }

  lemma {:induction false} Pow2Monotone(a: nat, b: nat)
    requires a <= b
    ensures Pow2(a) <= Pow2(b)
  {
    if a < b {
      Pow2Monotone(a, b - 1);
    }
  }

  /** The height of a red-black tree is at most twice the logarithm of its size plus one. */
  lemma {:induction false} HeightBound(t: Tree)
    requires RedBlack(t)
    ensures var n := |Items(t)|; Pow2(Height(t)) <= (n + 1) * (n + 1)
  {
    var h :| Level(t, h);
    LevelNonNegative(t, h);
    LevelSize(t, h);
    LevelHeight(t, h);
    Pow2Monotone(Height(t), h + h);
    Pow2Sum(h, h);
    var n := |Items(t)|;
    assert Pow2(h) * Pow2(h) <= (n + 1) * (n + 1) by {
      Squares(Pow2(h), n + 1);
    }
  }

  lemma Squares(a: nat, b: nat)
    requires a <= b
    ensures a * a <= b * b
  {
    assert a * a <= a * b;
  }
}
