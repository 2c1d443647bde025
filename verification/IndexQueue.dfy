/** Intrusive doubly linked queues: the links of all queues of a table live in one shared array. */
module IndexQueues {
  import opened Lists

  /** `-EINVAL`: no node. */
  const NONE: int := -22

  datatype IndexNode = IndexNode(prev: int, next: int)

  function FrontOf(q: seq<nat>): int {
    if q == [] then NONE else q[0]
  }

  function BackOf(q: seq<nat>): int {
    if q == [] then NONE else q[|q| - 1]
  }

  /** The links node `q[k]` has in queue `q`. */
  ghost function LinksAt(q: seq<nat>, k: nat): IndexNode
    requires k < |q|
  {
    IndexNode(if k == 0 then NONE else q[k - 1], if k + 1 == |q| then NONE else q[k + 1])
  }

  ghost predicate LinkedAt(ns: seq<IndexNode>, q: seq<nat>, k: nat) {
    k < |q| && q[k] < |ns| ==> ns[q[k]] == LinksAt(q, k)
  }

  ghost predicate Within(q: seq<nat>, n: nat) {
    forall k :: 0 <= k < |q| ==> q[k] < n
  }

  /** The links in `ns` spell out `q` in both directions. */
  ghost predicate Chain(ns: seq<IndexNode>, q: seq<nat>) {
    NoDup(q) && Within(q, |ns|) && forall k :: LinkedAt(ns, q, k)
  }

  /** A queue only depends on the links of its own nodes. */
  lemma ChainFrame(ns: seq<IndexNode>, ms: seq<IndexNode>, q: seq<nat>)
    requires Chain(ns, q) && |ms| == |ns|
    requires forall k :: 0 <= k < |q| ==> ms[q[k]] == ns[q[k]]
    ensures Chain(ms, q)
  {
    forall k ensures LinkedAt(ms, q, k) {
      assert LinkedAt(ns, q, k);
    }
  }

  predicate LinkOk(i: int, n: nat) {
    i == NONE || 0 <= i < n
  }

  /** The links after joining the neighbours of node `i`. */
  function Unlinked(ns: seq<IndexNode>, i: nat): (ms: seq<IndexNode>)
    requires i < |ns| && LinkOk(ns[i].prev, |ns|) && LinkOk(ns[i].next, |ns|)
    ensures |ms| == |ns|
  {
    var p, n := ns[i].prev, ns[i].next;
    var a := if p == NONE then ns else ns[p := ns[p].(next := n)];
    var b := if n == NONE then a else a[n := a[n].(prev := p)];
    b[i := IndexNode(NONE, NONE)]
  }

  /** Joining the neighbours of `q[k]` takes it out of the chain and changes no other queue's node. */
  lemma ChainCut(ns: seq<IndexNode>, q: seq<nat>, k: nat)
    requires Chain(ns, q) && k < |q|
    ensures LinkOk(ns[q[k]].prev, |ns|) && LinkOk(ns[q[k]].next, |ns|)
    ensures Chain(Unlinked(ns, q[k]), q[..k] + q[k + 1..])
    ensures forall j :: 0 <= j < |ns| && j !in q ==> Unlinked(ns, q[k])[j] == ns[j]
  {
    var x, r := q[k], q[..k] + q[k + 1..];
    assert LinkedAt(ns, q, k);
    var ms := Unlinked(ns, x);
    UnlinkedAt(ns, x);
    forall j: nat ensures LinkedAt(ms, r, j) {
      var i := if j < k then j else j + 1;
      if j < |r| {
        assert LinkedAt(ns, q, i) && r[j] == q[i];
        assert i != k && q[i] != x;
        assert i + 1 != k && k > 0 ==> q[i] != q[k - 1];
        assert i - 1 != k && k + 1 < |q| ==> q[i] != q[k + 1];
      }
    }
  }

  /** The ends of the queue without `q[k]`. */
  lemma CutEnds(ns: seq<IndexNode>, q: seq<nat>, k: nat)
    requires Chain(ns, q) && k < |q|
    ensures var r, n := q[..k] + q[k + 1..], ns[q[k]];
      && FrontOf(r) == (if n.prev == NONE then n.next else FrontOf(q))
      && BackOf(r) == (if n.next == NONE then n.prev else BackOf(q))
      && (n.prev == NONE ==> FrontOf(q) == q[k]) && (n.next == NONE ==> BackOf(q) == q[k])
  {
    assert LinkedAt(ns, q, k);
  }

  /** Cell by cell. */
  lemma UnlinkedAt(ns: seq<IndexNode>, x: nat)
    requires x < |ns| && LinkOk(ns[x].prev, |ns|) && LinkOk(ns[x].next, |ns|)
    ensures forall j :: 0 <= j < |ns| && j != x ==>
      Unlinked(ns, x)[j] == IndexNode(if j == ns[x].next then ns[x].prev else ns[j].prev,
                                      if j == ns[x].prev then ns[x].next else ns[j].next)
  {
  }

  lemma ChainAppend(ns: seq<IndexNode>, ms: seq<IndexNode>, q: seq<nat>, i: nat)
    requires Chain(ns, q) && |ms| == |ns| && i < |ns| && i !in q
    requires ms[i] == IndexNode(BackOf(q), NONE)
    requires q != [] ==> ms[q[|q| - 1]] == ns[q[|q| - 1]].(next := i)
    requires forall j :: 0 <= j < |q| - 1 ==> ms[q[j]] == ns[q[j]]
    ensures Chain(ms, q + [i])
  {
    forall k: nat ensures LinkedAt(ms, q + [i], k) {
      assert LinkedAt(ns, q, k);
    }
  }

  class IndexQueue {
    const nodes: array<IndexNode>
    var front: int
    var back: int
    var length: int
    ghost var contents: seq<nat>

    ghost predicate Valid()
      reads this, nodes
    {
      && Chain(nodes[..], contents)
      && front == FrontOf(contents) && back == BackOf(contents) && length == |contents|
    }

    constructor (nodes: array<IndexNode>)
      ensures Valid() && this.nodes == nodes && contents == []
    {
      this.nodes := nodes;
      front, back, length := NONE, NONE, 0;
      contents := [];
    }

    predicate IsEmpty()
      reads this, nodes
      requires Valid()
      ensures IsEmpty() <==> contents == []
    {
      front == NONE
    }

    /** Deletes `i` and leaves the links of every node outside this queue alone. */
    method Remove(i: nat)
      requires Valid() && i in contents
      modifies this, nodes
      ensures Valid() && contents == Without(old(contents), i)
      ensures i < nodes.Length && nodes[i] == IndexNode(NONE, NONE)
      ensures forall j: nat :: j < nodes.Length && j !in old(contents) ==> nodes[j] == old(nodes[j])
    {
      ghost var k :| 0 <= k < |contents| && contents[k] == i;
      ghost var q, ns := contents, nodes[..];
      ChainCut(ns, q, k);
      CutEnds(ns, q, k);
      WithoutAt(q, k);
      Unhook(i);
      contents := q[..k] + q[k + 1..];
    }

    /** The pointer updates of `Remove`. */
    method Unhook(i: nat)
      requires i < nodes.Length && LinkOk(nodes[i].prev, nodes.Length) && LinkOk(nodes[i].next, nodes.Length)
      requires nodes[i].prev == NONE ==> front == i
      requires nodes[i].next == NONE ==> back == i
      modifies this`front, this`back, this`length, nodes
      ensures nodes[..] == Unlinked(old(nodes[..]), i) && length == old(length) - 1
      ensures front == if old(nodes[i]).prev == NONE then old(nodes[i]).next else old(front)
      ensures back == if old(nodes[i]).next == NONE then old(nodes[i]).prev else old(back)
    {
      ghost var ns := nodes[..];
      var prev, next := nodes[i].prev, nodes[i].next;
      if prev == NONE {
        front := next;
      } else {
        nodes[prev] := nodes[prev].(next := next);
      }
      ghost var a := if prev == NONE then ns else ns[prev := ns[prev].(next := next)];
      assert nodes[..] == a;
      if next == NONE {
        back := prev;
      } else {
        nodes[next] := nodes[next].(prev := prev);
      }
      ghost var b := if next == NONE then a else a[next := a[next].(prev := prev)];
      assert nodes[..] == b;
      nodes[i] := IndexNode(NONE, NONE);
      length := length - 1;
    }

    method PushBack(i: nat)
      requires Valid() && i < nodes.Length && nodes[i] == IndexNode(NONE, NONE) && i !in contents
      modifies this, nodes
      ensures Valid() && contents == old(contents) + [i]
      ensures forall j: nat :: j < nodes.Length && j != i && j !in old(contents) ==> nodes[j] == old(nodes[j])
    {
      ghost var q, ns := contents, nodes[..];
      if IsEmpty() {
        front, back := i, i;
      } else {
        assert LinkedAt(ns, q, |q| - 1);
        nodes[i] := nodes[i].(prev := back);
        nodes[back] := nodes[back].(next := i);
        back := i;
      }
      length := length + 1;
      contents := q + [i];
      assert forall j :: 0 <= j < |q| - 1 ==> q[j] != q[|q| - 1];
      ChainAppend(ns, nodes[..], q, i);
    }

    method PopFront() returns (i: int)
      requires Valid()
      modifies this, nodes
      ensures Valid()
      ensures old(contents) == [] ==> i == NONE && contents == [] && nodes[..] == old(nodes[..])
      ensures old(contents) != [] ==> i == old(contents)[0] && contents == old(contents)[1..]
      ensures old(contents) != [] ==> i < nodes.Length && nodes[i] == IndexNode(NONE, NONE)
      ensures forall j: nat :: j < nodes.Length && j !in old(contents) ==> nodes[j] == old(nodes[j])
    {
      if IsEmpty() {
        return NONE;
      }
      assert LinkedAt(nodes[..], contents, 0);
      i := front;
      Remove(i);
    }

    /** `Accept` with a visitor that leaves the queue alone: following `next` from `front` visits the
        contents in order, and the number of visits is returned. */
    method Walk() returns (visited: seq<nat>, num: nat)
      requires Valid()
      ensures visited == contents && num == |contents|
    {
      visited, num := [], 0;
      var i := front;
      while i != NONE
        invariant num == |visited| <= |contents| && visited == contents[..num]
        invariant i == if num == |contents| then NONE else contents[num]
        decreases |contents| - num
      {
        assert LinkedAt(nodes[..], contents, num);
        var next := nodes[i].next;
        visited := visited + [i];
        i, num := next, num + 1;
      }
    }
  }
}
