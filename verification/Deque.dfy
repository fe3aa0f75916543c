/** The intrusive deque: a doubly linked list through the nodes' own links. */
module Deque {
  import opened Nodes

  /** Position k of the list, nothing standing on both sides. */
  ghost function At(l: seq<Node>, k: int): Node? {
    if 0 <= k < |l| then l[k] else null
  }

  /** Positions a and a + 1 point at each other. */
  ghost predicate Joined(l: seq<Node>, a: int)
    reads l`prev, l`next
  {
    var x, y := At(l, a), At(l, a + 1);
    (x != null ==> x.next == y) && (y != null ==> y.prev == x)
  }

  function Target(link: Node?): set<Node> {
    if link == null then {} else {link}
  }

  predicate Loose(n: Node)
    reads n`prev, n`next
  {
    n.prev == null && n.next == null
  }

  class Linked {
    var head: Node?
    var tail: Node?
    var len: nat
    ghost var items: seq<Node>

    ghost predicate Valid()
      reads this, items`prev, items`next
    {
      Represents(items)
    }

    /** The fields and the links spell out this list. */
    ghost predicate Represents(l: seq<Node>)
      reads `len, `head, `tail, l`prev, l`next
    {
      && NoDup(l) && len == |l|
      && head == At(l, 0) && tail == At(l, |l| - 1)
      && (forall a :: -1 <= a < |l| ==> Joined(l, a))
    }

    /** A node is either on this list or has no links at all. */
    ghost predicate Fits(n: Node)
      reads `items, n`prev, n`next
    {
      n in items || Loose(n)
    }

    constructor ()
      ensures Valid() && items == []
    {
      head, tail, len, items := null, null, 0, [];
    }

    method PushBack(n: Node)
      requires Valid() && n !in items && Loose(n)
      modifies this, items`next, n`prev, n`next
      ensures Valid() && items == old(items) + [n]
    {
      hide NoDup, At;
      Tail(items, n);
      assert Joined(items, -1) && Joined(items, |items| - 1);
      if len == 0 {
        head := n;
        tail := n;
      } else {
        n.prev := tail;
        tail.next := n;
        tail := n;
      }
      len := len + 1;
      items := items + [n];
      forall a | -1 <= a < |items| - 2 ensures Joined(items, a) {
        BeforeTail(old(items), n, a);
        assert old(Joined(items, a));
      }
      assert Joined(items, |items| - 2) && Joined(items, |items| - 1);
    }

    method PushFront(n: Node)
      requires Valid() && n !in items && Loose(n)
      modifies this, items`prev, n`prev, n`next
      ensures Valid() && items == [n] + old(items)
    {
      hide NoDup, At;
      Front(items, n);
      assert Joined(items, -1) && Joined(items, |items| - 1);
      if len == 0 {
        head := n;
        tail := n;
      } else {
        n.next := head;
        head.prev := n;
        head := n;
      }
      len := len + 1;
      items := [n] + items;
      forall a | 1 <= a < |items| ensures Joined(items, a) {
        AfterFront(old(items), n, a);
        assert old(Joined(items, a - 1));
      }
      assert Joined(items, -1) && Joined(items, 0);
    }

    /** Takes n out of the list, if it is on it. */
    method Delete(n: Node)
      requires Valid() && Fits(n)
      modifies this, items`prev, items`next
      ensures Valid() && Loose(n)
      ensures items == Remove(old(items), n)
      ensures forall m :: m in items <==> m in old(items) && m != n
    {
      hide NoDup, At, Remove;
      ghost var l := items;
      ghost var p := 0;
      if n in items {
        p :| 0 <= p < |items| && items[p] == n;
        Gap(l, p);
        WithoutNoDup(l, p);
        RemoveAt(l, p);
        assert Joined(l, p - 1) && Joined(l, p);
        assert n.prev == At(l, p - 1) && n.next == At(l, p + 1);
      } else {
        RemoveAbsent(l, n, n);
        HeadIsItem(l, head, n);
      }
      ghost var gone := Cut(n);
      if gone {
        items := Without(l, p);
        forall a | -1 <= a < |items| && a != p - 1 ensures Joined(items, a) {
          Elsewhere(l, p, a);
          ghost var b := if a < p then a else a + 1;
          ghost var x, y := At(l, b), At(l, b + 1);
          assert x == At(items, a) && y == At(items, a + 1);
          assert old(Joined(items, b));
          assert x != null ==> x.next == old(x.next);
          assert y != null ==> y.prev == old(y.prev);
        }
        assert Joined(items, p - 1);
      }
    }

    /** The statements of Delete, for any node: one without links that is the head takes all the others off with it. */
    method Cut(n: Node) returns (ghost gone: bool)
      requires len > 0 || (Loose(n) && head != n)
      requires n.prev != n && n.next != n && (n.prev != null ==> n.prev != n.next)
      modifies `head, `tail, `len, Target(n.prev)`next, Target(n.next)`prev
      modifies (if n.prev == null then {} else {n})`prev, (if n.next == null then {} else {n})`next
      ensures Loose(n) && (gone <==> !old(Loose(n)) || old(head) == n)
      ensures !gone ==> head == old(head) && tail == old(tail) && len == old(len)
      ensures gone ==> len == old(len) - 1
      ensures gone ==> head == if old(n.prev) == null then old(n.next) else old(head)
      ensures gone ==> tail == if old(n.next) == null then old(n.prev) else old(tail)
      ensures old(n.prev) != null ==> old(n.prev).next == old(n.next)
      ensures old(n.next) != null ==> old(n.next).prev == old(n.prev)
    {
      var next := n.next;
      var prev := n.prev;
      gone := false;
      if prev == null {
        if next == null && head != n {
          return;
        }
        head := next;
      } else {
        prev.next := next;
        n.prev := null;
      }
      if next == null {
        tail := prev;
      } else {
        next.prev := prev;
        n.next := null;
      }
      len := len - 1;
      gone := true;
    }

    /** Delete for a node without links. */
    method DeleteLoose(n: Node)
      requires Loose(n) && (head == n ==> len > 0)
      modifies this
      ensures old(head) != n ==> head == old(head) && tail == old(tail) && len == old(len) && items == old(items)
      ensures old(head) == n ==> head == null && tail == null && len == old(len) - 1
      ensures old(Valid()) ==> Valid() && items == Remove(old(items), n)
    {
      hide Remove;
      assert Valid() ==> (n in items <==> head == n) && (head == n ==> items == [n]) by {
        if Valid() {
          LinksTell(n);
          if head == n {
            assert Joined(items, 0);
          }
        }
      }
      if n !in items {
        RemoveAbsent(items, n, n);
      }
      ghost var gone := Cut(n);
      if gone && len == 0 {
        items := [];
      } else {
        forall a | -1 <= a < |items| ensures Joined(items, a) == old(Joined(items, a)) {
        }
      }
      assert Remove([n], n) == [] by { RemoveAt([n], 0); }
    }

    /** The links of n, of its new neighbours and of the ends, before anything is said about lists. */
    method Splice(n: Node, o: Node)
      requires n != o ==> Loose(n)
      requires (o.next == null || (o.next != o && o.next != n && o.next != o.prev)) && o.prev != o && o.prev != n
      modifies `head, `tail, Target(o.next)`prev, Target(o.prev)`next
      modifies (if o.prev == null then {} else {n, o})`prev, (if o.next == null then {} else {n, o})`next
      ensures Loose(o)
      ensures n != o ==> n.next == old(o.next) && n.prev == old(o.prev)
      ensures old(o.next) != null ==> old(o.next).prev == n
      ensures old(o.prev) != null ==> old(o.prev).next == n
      ensures head == if old(o.prev) == null && old(head) == o then n else old(head)
      ensures tail == if old(o.next) == null && old(tail) == o then n else old(tail)
    {
      var oldNext := o.next;
      if oldNext == null {
        if tail == o {
          tail := n;
        }
      } else {
        oldNext.prev := n;
        n.next := oldNext;
        o.next := null;
      }
      var oldPrev := o.prev;
      if oldPrev == null {
        if head == o {
          head := n;
        }
      } else {
        n.prev := oldPrev;
        oldPrev.next := n;
        o.prev := null;
      }
    }

    /**
      Puts n in the place of o; nothing happens to the list if o is not on it. A node put in its own
      place loses its links while its neighbours keep theirs: unless it is alone on the list, no list
      is spelled out any more.
    */
    method UpdateNode(n: Node, o: Node)
      requires Valid() && Fits(o) && (n != o ==> n !in items && Loose(n))
      modifies this, items`prev, items`next, n`prev, n`next
      ensures Valid() <==> n != o || n !in old(items) || |old(items)| == 1
      ensures Loose(o) && items == Replace(old(items), o, n)
      ensures o !in old(items) ==> items == old(items) && Loose(n)
      ensures forall m :: m in items <==> (m in old(items) && m != o) || (m == n && o in old(items))
      ensures n == o ==> items == old(items) && head == old(head) && tail == old(tail) && len == old(len)
      ensures n == o ==> forall m :: m in items && m != n ==> m.prev == old(m.prev) && m.next == old(m.next)
      ensures n == o ==> After(n)
      ensures n == o && n in items && |items| > 1 ==> forall l :: !Represents(l)
    {
      if n == o {
        assert Replace(items, n, n) == items by { ReplaceSame(items, n); }
        Renew(n);
        if n in items && |items| > 1 {
          forall l ensures !Represents(l) {
            NothingFits(n, l);
          }
        }
      } else {
        Substitute(n, o);
      }
    }

    /** UpdateNode for two nodes. */
    method Substitute(n: Node, o: Node)
      requires Valid() && Fits(o) && n != o && n !in items && Loose(n)
      modifies this, items`prev, items`next, n`prev, n`next
      ensures Valid() && Loose(o) && items == Replace(old(items), o, n)
      ensures o !in old(items) ==> items == old(items) && Loose(n)
      ensures forall m :: m in items <==> (m in old(items) && m != o) || (m == n && o in old(items))
    {
      hide NoDup, At, Replace;
      ghost var l := items;
      ghost var p := 0;
      if o in items {
        p :| 0 <= p < |items| && items[p] == o;
        Gap(l, p);
        Swapped(l, p, n);
        ReplaceAt(l, p, n);
        assert Joined(l, p - 1) && Joined(l, p);
        assert o.prev == At(l, p - 1) && o.next == At(l, p + 1);
      } else {
        RemoveAbsent(l, o, n);
        HeadIsItem(l, head, o);
        TailIsItem(l, tail, o);
      }
      Splice(n, o);
      if o !in items {
        forall a | -1 <= a < |items| ensures Joined(items, a) {
          assert old(Joined(items, a));
        }
      } else {
        items := items[p := n];
        forall a | -1 <= a < |items| && a != p - 1 && a != p ensures Joined(items, a) {
          SwappedElsewhere(l, p, n, a);
          ghost var x, y := At(l, a), At(l, a + 1);
          assert x == At(items, a) && y == At(items, a + 1);
          assert old(Joined(items, a));
          assert x != null ==> old(x.next) == y;
          assert y != null ==> old(y.prev) == x;
          assert x != null ==> x.next == old(x.next);
          assert y != null ==> y.prev == old(y.prev);
        }
        assert Joined(items, p - 1) && Joined(items, p);
      }
    }

    /** UpdateNode for a node and itself. */
    method Renew(n: Node)
      requires Valid() && Fits(n)
      modifies this, items`prev, items`next
      ensures Valid() <==> n !in items || |items| == 1
      ensures Loose(n) && items == old(items) && head == old(head) && tail == old(tail) && len == old(len)
      ensures forall m :: m in items && m != n ==> m.prev == old(m.prev) && m.next == old(m.next)
      ensures After(n)
    {
      hide NoDup, At, Torn;
      ghost var p := 0;
      if n in items {
        p :| 0 <= p < |items| && items[p] == n;
        Gap(items, p);
        assert Joined(items, p - 1) && Joined(items, p);
        FirstAt(items);
      }
      assert (n.prev != null ==> n.prev.next == n) && (n.next != null ==> n.next.prev == n);
      assert forall k :: 0 <= k < |items| - 1 ==> items[k].next == items[k + 1] by {
        forall k | 0 <= k < |items| - 1 ensures items[k].next == items[k + 1] {
          assert Joined(items, k);
          AtItem(items, k);
          AtItem(items, k + 1);
        }
      }
      Splice(n, n);
      assert forall m :: m in items && m != n ==> m.prev == old(m.prev) && m.next == old(m.next);
      if n !in items {
        forall a | -1 <= a < |items| ensures Joined(items, a) {
          assert old(Joined(items, a));
        }
      } else if |items| == 1 {
        assert Joined(items, -1) && Joined(items, 0);
      } else {
        Apart(items, p);
        assert Torn(n) by { TornIs(n); }
        assert !Represents(items) by { NothingFits(n, items); }
      }
    }

    /** The node n, one of several items, has lost its links, or there is no head although there are items. */
    ghost predicate Torn(n: Node)
      reads `len, `head, `items, items`prev, items`next
    {
      || (head == null && len > 0)
      || (n in items && |items| == len > 1 && head == items[0] && n.prev == null && n.next == null
          && forall k :: 0 <= k < |items| - 1 && items[k] != n ==> items[k].next == items[k + 1])
    }

    lemma TornIs(n: Node)
      requires n in items && |items| == len > 1 && head == items[0] && n.prev == null && n.next == null
      requires forall k :: 0 <= k < |items| - 1 && items[k] != n ==> items[k].next == items[k + 1]
      ensures Torn(n)
    {
    }

    /** What putting a node in its own place leaves: the ends are as before. */
    ghost predicate After(n: Node)
      reads this, items`prev, items`next, n`prev, n`next
    {
      && Loose(n) && NoDup(items) && len == |items| && head == At(items, 0) && tail == At(items, |items| - 1)
      && if n in items && |items| > 1 then Torn(n) else Valid()
    }

    /** Walking a torn list from the head leads to a node without links. */
    lemma NothingFits(n: Node, m: seq<Node>)
      requires Torn(n)
      ensures !Represents(m)
    {
      if Represents(m) && head != null {
        var p := FirstOf(items, n);
        SameWalk(items, p, m, p);
        assert Joined(m, p) && Joined(m, p - 1);
        assert false;
      }
    }

    lemma {:induction false} SameWalk(l: seq<Node>, p: nat, m: seq<Node>, k: nat)
      requires k <= p < |l| == len && head == l[0] && Represents(m)
      requires forall j :: 0 <= j < p ==> l[j].next == l[j + 1]
      ensures m[k] == l[k]
    {
      if k > 0 {
        SameWalk(l, p, m, k - 1);
        assert Joined(m, k - 1);
      }
    }

    method PopFront() returns (result: Node?)
      requires Valid()
      modifies this, items`prev, items`next
      ensures Valid()
      ensures old(items) == [] ==> result == null && items == []
      ensures old(items) != [] ==> result == old(items)[0] && items == old(items)[1..] && Loose(result)
    {
      if len == 0 {
        return null;
      }
      result := head;
      Delete(result);
    }

    /** The pointer test is exact for nodes that are on this list or on none. */
    method Contains(n: Node) returns (b: bool)
      ensures b <==> !Loose(n) || head == n
      ensures Valid() && Fits(n) ==> (b <==> n in items)
    {
      if Valid() && Fits(n) {
        LinksTell(n);
      }
      b := n.prev != null || n.next != null || head == n;
    }

    lemma LinksTell(n: Node)
      requires Valid() && Fits(n)
      ensures n in items <==> !Loose(n) || head == n
    {
      hide NoDup, At;
      if n in items {
        var p :| 0 <= p < |items| && items[p] == n;
        Gap(items, p);
        assert Joined(items, p - 1) && Joined(items, p);
      } else {
        HeadIsItem(items, head, n);
      }
    }

    method MoveToBack(n: Node)
      requires Valid() && n in items
      modifies this, items`prev, items`next
      ensures Valid()
      ensures items == Remove(old(items), n) + [n]
      ensures forall m :: m in items <==> m in old(items)
    {
      if n != tail {
        Delete(n);
        assert forall k :: 0 <= k < |items| ==> items[k] in old(items);
        PushBack(n);
      } else {
        RemoveAt(items, |items| - 1);
        assert items == Without(items, |items| - 1) + [n];
      }
    }

    method MoveToFront(n: Node)
      requires Valid() && n in items
      modifies this, items`prev, items`next
      ensures Valid()
      ensures items == [n] + Remove(old(items), n)
      ensures forall m :: m in items <==> m in old(items)
    {
      if n != head {
        Delete(n);
        assert forall k :: 0 <= k < |items| ==> items[k] in old(items);
        PushFront(n);
      } else {
        assert items == [n] + Remove(items, n);
      }
    }
  }

  /** Three nodes, the middle one put in its own place: no list is spelled out any more. */
  method TornByItself() returns (d: Linked, a: Node, n: Node, b: Node)
    ensures d.items == [a, n, b] && d.head == a && d.tail == b && d.len == 3
    ensures Loose(n) && a.next == n && b.prev == n
    ensures forall l :: !d.Represents(l)
  {
    a := new Node(1, 0);
    n := new Node(1, 0);
    b := new Node(1, 0);
    d := new Linked();
    d.PushBack(a);
    d.PushBack(n);
    d.PushBack(b);
    assert d.items == [a, n, b];
    assert Joined(d.items, 0) && Joined(d.items, 1);
    d.UpdateNode(n, n);
  }

  lemma TailIsItem(l: seq<Node>, tail: Node?, n: Node)
    requires tail == At(l, |l| - 1) && n !in l
    ensures tail != n
  {
  }

  /** Putting n at position p. */
  lemma Swapped(l: seq<Node>, p: nat, n: Node)
    requires p < |l| && NoDup(l) && n !in l
    ensures var r := l[p := n];
      && NoDup(r) && At(r, p) == n && At(r, p - 1) == At(l, p - 1) && At(r, p + 1) == At(l, p + 1)
      && At(r, 0) == (if p == 0 then n else At(l, 0)) && At(r, |l| - 1) == (if p == |l| - 1 then n else At(l, |l| - 1))
      && At(l, p - 1) != n && At(l, p + 1) != n
      && (forall m :: m in r <==> (m in l && m != l[p]) || m == n)
  {
    var r := l[p := n];
    forall m | m in l && m != l[p] ensures m in r {
      var k :| 0 <= k < |l| && l[k] == m;
      assert r[k] == m;
    }
    assert r[p] == n;
  }

  lemma SwappedElsewhere(l: seq<Node>, p: nat, n: Node, a: int)
    requires p < |l| && NoDup(l) && n !in l && -1 <= a < |l| && a != p - 1 && a != p
    ensures At(l[p := n], a) == At(l, a) && At(l[p := n], a + 1) == At(l, a + 1)
    ensures At(l, a) != n && At(l, a + 1) != n && At(l, a) != l[p] && At(l, a + 1) != l[p]
    ensures At(l, a) == null || At(l, a) != At(l, p - 1)
    ensures At(l, a + 1) == null || At(l, a + 1) != At(l, p + 1)
  {
  }

  lemma {:induction false} FirstOf(l: seq<Node>, n: Node) returns (p: nat)
    requires n in l
    ensures p < |l| && l[p] == n && n !in l[..p]
  {
    if l[0] == n {
      p := 0;
    } else {
      p := FirstOf(l[1..], n);
      assert l[..p + 1] == [l[0]] + l[1..][..p];
      p := p + 1;
    }
  }

  lemma FirstAt(l: seq<Node>)
    requires l != []
    ensures At(l, 0) == l[0]
  {
  }

  lemma AtItem(l: seq<Node>, k: nat)
    requires k < |l|
    ensures At(l, k) == l[k]
  {
  }

  lemma Apart(l: seq<Node>, p: nat)
    requires p < |l| && NoDup(l)
    ensures forall k :: 0 <= k < |l| && k != p ==> l[k] != l[p]
  {
  }

  lemma HeadIsItem(l: seq<Node>, head: Node?, n: Node)
    requires head == At(l, 0) && n !in l
    ensures head != n
  {
  }

  /** Leaving out position p: what ends up beside the gap. */
  lemma Gap(l: seq<Node>, p: nat)
    requires p < |l| && NoDup(l)
    ensures At(l, p) == l[p] && l[p] !in Without(l, p)
    ensures At(Without(l, p), p - 1) == At(l, p - 1) && At(Without(l, p), p) == At(l, p + 1)
    ensures At(l, p - 1) != l[p] && At(l, p + 1) != l[p]
    ensures At(l, p - 1) == null <==> p == 0
    ensures At(l, p + 1) == null <==> p == |l| - 1
    ensures p > 0 ==> At(l, p - 1) in l
    ensures p < |l| - 1 ==> At(l, p + 1) in l
    ensures At(l, p - 1) == At(l, p + 1) ==> At(l, p - 1) == null
    ensures At(l, 0) == l[p] <==> p == 0
    ensures At(l, |l| - 1) == l[p] <==> p == |l| - 1
    ensures p > 0 ==> At(Without(l, p), 0) == At(l, 0)
    ensures p < |l| - 1 ==> At(Without(l, p), |l| - 2) == At(l, |l| - 1)
  {
  }

  lemma Elsewhere(l: seq<Node>, p: nat, a: int)
    requires p < |l| && NoDup(l) && -1 <= a < |l| - 1 && a != p - 1
    ensures var o, rest := if a < p then a else a + 1, Without(l, p);
      && At(rest, a) == At(l, o) && At(rest, a + 1) == At(l, o + 1)
      && At(l, o) != l[p] && At(l, o + 1) != l[p]
      && (At(l, o) == null || At(l, o) != At(l, p - 1))
      && (At(l, o + 1) == null || At(l, o + 1) != At(l, p + 1))
  {
    var o, rest := if a < p then a else a + 1, Without(l, p);
    assert At(rest, a) == At(l, o);
    assert At(rest, a + 1) == At(l, o + 1);
  }

  lemma Front(l: seq<Node>, n: Node)
    requires NoDup(l) && n !in l
    ensures NoDup([n] + l) && At([n] + l, 0) == n && At([n] + l, 1) == At(l, 0) && At([n] + l, -1) == null
    ensures At([n] + l, |l|) == if l == [] then n else At(l, |l| - 1)
    ensures At(l, -1) == null && At(l, |l|) == null
    ensures l != [] ==> At(l, |l| - 1) == l[|l| - 1] && At(l, 0) == l[0]
    ensures At(l, 0) != n
  {
  }

  lemma AfterFront(l: seq<Node>, n: Node, a: int)
    requires NoDup(l) && n !in l && 1 <= a < |l| + 1
    ensures At([n] + l, a) == At(l, a - 1) && At([n] + l, a + 1) == At(l, a)
    ensures At(l, a - 1) != n && At(l, a) != n && At(l, a - 1) != null && At(l, a) != At(l, 0)
  {
  }

  lemma Tail(l: seq<Node>, n: Node)
    requires NoDup(l) && n !in l
    ensures NoDup(l + [n]) && At(l + [n], |l|) == n && At(l + [n], |l| - 1) == At(l, |l| - 1) && At(l + [n], |l| + 1) == null
    ensures At(l + [n], 0) == if l == [] then n else At(l, 0)
    ensures At(l, -1) == null && At(l, |l|) == null
    ensures l != [] ==> At(l, |l| - 1) == l[|l| - 1] && At(l, 0) == l[0]
    ensures At(l, |l| - 1) != n
  {
  }

  lemma BeforeTail(l: seq<Node>, n: Node, a: int)
    requires NoDup(l) && n !in l && -1 <= a < |l| - 1
    ensures At(l + [n], a) == At(l, a) && At(l + [n], a + 1) == At(l, a + 1)
    ensures At(l, a) != n && At(l, a + 1) != n && At(l, a + 1) != null && At(l, a) != At(l, |l| - 1)
  {
  }
}
