/** The cache entry that the eviction queues and the timer wheel link through. */
module Nodes {

  type int64 = x: int | -0x8000_0000_0000_0000 <= x < 0x8000_0000_0000_0000
  type uint32 = x: int | 0 <= x < 0x1_0000_0000

  const MAX_INT64: int64 := 0x7fff_ffff_ffff_ffff
  const TWO_64: nat := 0x1_0000_0000_0000_0000

  datatype Lifecycle = Alive | Retired | Dead
  datatype Queue = InWindow | InMainProbation | InMainProtected

  class Node {
    const weight: uint32
    var expiresAt: int64
    var state: Lifecycle
    var queueType: Queue
    var prev: Node?
    var next: Node?
    var prevExp: Node?
    var nextExp: Node?

    constructor (weight: uint32, expiresAt: int64)
      ensures this.weight == weight && this.expiresAt == expiresAt
      ensures state == Alive && queueType == InWindow
      ensures prev == null && next == null && prevExp == null && nextExp == null
    {
      this.weight, this.expiresAt := weight, expiresAt;
      state, queueType := Alive, InWindow;
      prev, next, prevExp, nextExp := null, null, null, null;
    }
  }

  /** The conversion of a signed to an unsigned 64-bit number. */
  function Unsigned(x: int64): (u: nat)
    ensures u < TWO_64
  {
    if x < 0 then x + TWO_64 else x
  }

  // ---------- Unsigned 64-bit totals ----------

  function Plus(a: nat, b: nat): (r: nat)
    ensures r < TWO_64
  {
    (a + b) % TWO_64
  }

  function Minus(a: nat, b: nat): (r: nat)
    ensures r < TWO_64
  {
    (a - b) % TWO_64
  }

  // ---------- Lists ----------

  ghost predicate NoDup<T>(l: seq<T>) {
    forall i, j :: 0 <= i < j < |l| ==> l[i] != l[j]
  }

  function Without<T>(l: seq<T>, p: nat): (r: seq<T>)
    requires p < |l|
    ensures |r| == |l| - 1
  {
    l[..p] + l[p + 1..]
  }

  lemma WithoutNoDup<T>(l: seq<T>, p: nat)
    requires p < |l| && NoDup(l)
    ensures NoDup(Without(l, p))
    ensures forall x :: x in Without(l, p) <==> x in l && x != l[p]
  {
    var r := Without(l, p);
    assert forall k :: 0 <= k < |r| ==> r[k] == l[if k < p then k else k + 1];
    forall x | x in l && x != l[p] ensures x in r {
      var k :| 0 <= k < |l| && l[k] == x;
      assert r[if k < p then k else k - 1] == x;
    }
  }

  /** The list without the first occurrence of x. */
  function Remove<T(==)>(l: seq<T>, x: T): (r: seq<T>) {
    if l == [] then [] else if l[0] == x then l[1..] else [l[0]] + Remove(l[1..], x)
  }

  /** The list with y in the place of the first occurrence of x. */
  function Replace<T(==)>(l: seq<T>, x: T, y: T): (r: seq<T>) {
    if l == [] then [] else if l[0] == x then [y] + l[1..] else [l[0]] + Replace(l[1..], x, y)
  }

  lemma {:induction false} RemoveAt<T>(l: seq<T>, p: nat)
    requires p < |l| && NoDup(l)
    ensures Remove(l, l[p]) == Without(l, p)
  {
    if p > 0 {
      assert l[0] != l[p];
      RemoveAt(l[1..], p - 1);
      assert Without(l, p) == [l[0]] + Without(l[1..], p - 1);
    }
  }

  lemma {:induction false} ReplaceAt<T>(l: seq<T>, p: nat, y: T)
    requires p < |l| && NoDup(l)
    ensures Replace(l, l[p], y) == l[p := y]
  {
    if p > 0 {
      assert l[0] != l[p];
      ReplaceAt(l[1..], p - 1, y);
      assert l[p := y] == [l[0]] + l[1..][p - 1 := y];
    }
  }

  lemma {:induction false} RemoveAbsent<T>(l: seq<T>, x: T, y: T)
    requires x !in l
    ensures Remove(l, x) == l && Replace(l, x, y) == l
  {
    if l != [] {
      RemoveAbsent(l[1..], x, y);
    }
  }

  lemma {:induction false} ReplaceSame<T>(l: seq<T>, x: T)
    ensures Replace(l, x, x) == l
  {
    if l != [] && l[0] != x {
      ReplaceSame(l[1..], x);
    }
  }
}
