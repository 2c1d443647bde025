/** Results of code that may hit a failing `assert`. */
module Outcomes {

  /** `Abort` stands for a failing source assertion (or an out-of-range access). */
  datatype Outcome<+T> = Ok(value: T) | Abort {
    predicate IsFailure() { Abort? }

    function PropagateFailure<U>(): Outcome<U>
      requires Abort?
    {
      Abort
    }

    function Extract(): T
      requires Ok?
    {
      value
    }
  }

  datatype Check = Pass | Fail {
    predicate IsFailure() { Fail? }

    function PropagateFailure<U>(): Outcome<U>
      requires Fail?
    {
      Abort
    }
  }

  /** One source-level `assert`. */
  function Assert(condition: bool): Check {
    if condition then Pass else Fail
  }

  datatype Option<+T> = None | Some(value: T)

  /** Guards a fact that proofs should only see on request: `assert Unlocked(0)` asks for it. */
  ghost predicate Unlocked(u: int) {
    true
  }

  /** A second guard, for facts that stay hidden while the first kind is asked for. */
  ghost predicate Unsealed(u: int) {
    true
  }
}

/** Duplicate-free sequences, the abstract value of an intrusive queue. */
module Lists {

  ghost predicate NoDup(q: seq<nat>) {
    forall a, b :: 0 <= a < b < |q| ==> q[a] != q[b]
  }

  /** `q` lists exactly the elements of `s`, each once. */
  ghost predicate Listing(q: seq<nat>, s: set<nat>) {
    NoDup(q) && forall x :: x in q <==> x in s
  }

  /** `q` with the first occurrence of `i` deleted. */
  function Without(q: seq<nat>, i: nat): seq<nat> {
    if q == [] then []
    else if q[0] == i then q[1..]
    else [q[0]] + Without(q[1..], i)
  }

  lemma {:induction false} WithoutAt(q: seq<nat>, k: nat)
    requires k < |q| && NoDup(q)
    ensures Without(q, q[k]) == q[..k] + q[k + 1..]
  {
    if k > 0 {
      assert q[1..][k - 1] == q[k];
      WithoutAt(q[1..], k - 1);
      assert q[1..][..k - 1] == q[1..k] && q[1..][k..] == q[k + 1..];
    }
  }

  lemma {:induction false} WithoutMembers(q: seq<nat>, i: nat)
    requires NoDup(q)
    ensures NoDup(Without(q, i))
    ensures forall x :: x in Without(q, i) <==> x in q && x != i
    ensures |Without(q, i)| == if i in q then |q| - 1 else |q|
  {
    if i in q {
      var k :| 0 <= k < |q| && q[k] == i;
      WithoutAt(q, k);
      forall x | x in q && x != i ensures x in q[..k] + q[k + 1..] {
        var j :| 0 <= j < |q| && q[j] == x;
        assert x == if j < k then q[..k][j] else q[k + 1..][j - k - 1];
      }
    } else {
      WithoutAbsent(q, i);
    }
  }

  lemma {:induction false} WithoutAbsent(q: seq<nat>, i: nat)
    requires i !in q
    ensures Without(q, i) == q
  {
    if q != [] {
      WithoutAbsent(q[1..], i);
    }
  }

  lemma {:induction false} WithoutListing(q: seq<nat>, s: set<nat>, i: nat)
    requires Listing(q, s)
    ensures Listing(Without(q, i), s - {i})
  {
    WithoutMembers(q, i);
  }

  /** Cutting out position `k` removes one occurrence of what stood there. */
  lemma TakenOut<T>(s: seq<T>, k: nat)
    requires k < |s|
    ensures multiset(s[..k] + s[k + 1..]) == multiset(s) - multiset{s[k]}
  {
    assert s == s[..k] + [s[k]] + s[k + 1..];
  }

  lemma AppendListing(q: seq<nat>, s: set<nat>, i: nat)
    requires Listing(q, s) && i !in s
    ensures Listing(q + [i], s + {i})
  {
    assert (q + [i])[|q|] == i;
    forall x | x in s ensures x in q + [i] {
      assert x in q;
    }
  }

  lemma ListingPrefix(q: seq<nat>, s: set<nat>)
    requires Listing(q, s) && q != []
    ensures Listing(q[..|q| - 1], s - {q[|q| - 1]})
  {
    var last := |q| - 1;
    forall x ensures x in q[..last] <==> x in s - {q[last]} {
      if x in s - {q[last]} {
        var k :| 0 <= k < |q| && q[k] == x;
        assert q[..last][k] == x;
      }
    }
  }

  /** A duplicate-free sequence has as many elements as the set it lists. */
  lemma {:induction false} ListingCardinality(q: seq<nat>, s: set<nat>)
    requires Listing(q, s)
    ensures |q| == |s|
  {
    if q == [] {
      assert s == {};
    } else {
      ListingPrefix(q, s);
      assert q[|q| - 1] in s;
      ListingCardinality(q[..|q| - 1], s - {q[|q| - 1]});
    }
  }
}

/** Cardinality facts behind the slot-counting arguments. */
module Counting {

  function Range(n: nat): (r: set<nat>)
    ensures forall x: int :: x in r <==> 0 <= x < n
  {
    if n == 0 then {} else Range(n - 1) + {n - 1}
  }

  lemma {:induction false} RangeCardinality(n: nat)
    ensures |Range(n)| == n
  {
    if n == 0 {
      assert Range(0) == {};
    } else {
      RangeCardinality(n - 1);
      assert Range(n) == Range(n - 1) + {n - 1};
    }
  }

  /** Four disjoint parts of `[0, n)` have `n` elements together. */
  lemma {:induction false} FourParts(a: set<nat>, b: set<nat>, c: set<nat>, d: set<nat>, n: nat)
    requires a + b + c + d == Range(n)
    requires a !! b && a !! c && a !! d && b !! c && b !! d && c !! d
    ensures |a| + |b| + |c| + |d| == n
  {
    RangeCardinality(n);
    assert |a + b| == |a| + |b|;
    assert |a + b + c| == |a + b| + |c|;
    assert |a + b + c + d| == |a + b + c| + |d|;
  }

  lemma {:induction false} SubsetCardinality<T>(a: set<T>, b: set<T>)
    requires a <= b
    ensures |a| <= |b|
    ensures |a| == |b| ==> a == b
  {
    assert b == a + (b - a);
  }

  /** Pigeonhole: an injective map from `dom` into `range` of equal size is onto. */
  lemma {:induction false} InjectiveIsOnto(f: map<nat, nat>, range: set<nat>)
    requires forall x :: x in f ==> f[x] in range
    requires forall x, y :: x in f && y in f && x != y ==> f[x] != f[y]
    ensures |f| <= |range|
    ensures |f| == |range| ==> forall y :: y in range ==> y in f.Values
  {
    if |f| != 0 {
      var x :| x in f.Keys;
      var g := f - {x};
      assert g.Keys == f.Keys - {x};
      InjectiveIsOnto(g, range - {f[x]});
      assert f[x] in f.Values;
      forall y | |f| == |range| && y in range ensures y in f.Values {
        if y != f[x] {
          assert y in g.Values;
          var z :| z in g && g[z] == y;
          assert f[z] == y;
        }
      }
    }
  }
}

/** Order-independent sums over finite maps, for the write counters. */
module Sums {
  import opened Lists

  ghost function Sum(m: map<nat, nat>): nat {
    if m == map[] then 0
    else
      var x :| x in m;
      m[x] + Sum(m - {x})
  }

  lemma {:induction false} SumRemove(m: map<nat, nat>, x: nat)
    requires x in m
    ensures Sum(m) == m[x] + Sum(m - {x})
    decreases |m|
  {
    var y :| y in m && Sum(m) == m[y] + Sum(m - {y});
    if x != y {
      assert (m - {y}).Keys == m.Keys - {y} && (m - {x}).Keys == m.Keys - {x};
      SumRemove(m - {y}, x);
      SumRemove(m - {x}, y);
      assert m - {y} - {x} == m - {x} - {y};
    }
  }

  lemma SumUpdate(m: map<nat, nat>, x: nat, v: nat)
    ensures Sum(m[x := v]) == v + Sum(m - {x})
    ensures x in m ==> Sum(m[x := v]) == Sum(m) - m[x] + v
    ensures x !in m ==> Sum(m[x := v]) == Sum(m) + v
  {
    SumRemove(m[x := v], x);
    assert m[x := v] - {x} == m - {x};
    if x in m {
      SumRemove(m, x);
    } else {
      assert m - {x} == m;
    }
  }

  /** The sum of `m` along a sequence of keys. */
  function SumAlong(m: map<nat, nat>, order: seq<nat>): nat
    requires forall x :: x in order ==> x in m
  {
    if order == [] then 0
    else SumAlong(m, order[..|order| - 1]) + m[order[|order| - 1]]
  }

  lemma {:induction false} SumAlongAgree(m: map<nat, nat>, n: map<nat, nat>, order: seq<nat>)
    requires forall x :: x in order ==> x in m && x in n && m[x] == n[x]
    ensures SumAlong(m, order) == SumAlong(n, order)
  {
    if order != [] {
      SumAlongAgree(m, n, order[..|order| - 1]);
    }
  }

  /** Whatever order a table is iterated in, the total is the same. */
  lemma {:induction false} SumAlongListing(m: map<nat, nat>, order: seq<nat>)
    requires Listing(order, m.Keys)
    ensures SumAlong(m, order) == Sum(m)
  {
    if order == [] {
      assert m.Keys == {};
      assert m == map[];
    } else {
      var x := order[|order| - 1];
      assert x in m.Keys;
      ListingPrefix(order, m.Keys);
      assert (m - {x}).Keys == m.Keys - {x};
      SumAlongAgree(m, m - {x}, order[..|order| - 1]);
      SumAlongListing(m - {x}, order[..|order| - 1]);
      SumRemove(m, x);
    }
  }
}
