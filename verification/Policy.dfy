/**
  The W-TinyLFU eviction policy: three intrusive deques, three running totals of
  unsigned 64-bit weights, and the limits the climber moves.
*/
module Policy {
  import opened Arith
  import opened Nodes
  import opened Options
  import opened Eviction
  import opened Deque

  const QUEUE_TRANSFER_THRESHOLD: nat := 1000

  // ---------- Sums of weights ----------

  ghost function Weigh(s: set<Node>): nat {
    if s == {} then 0
    else
      var x :| x in s;
      x.weight + Weigh(s - {x})
  }

  lemma {:induction false} WeighRemove(s: set<Node>, x: Node)
    requires x in s
    ensures Weigh(s) == x.weight + Weigh(s - {x})
    decreases s
  {
    var y :| y in s && Weigh(s) == y.weight + Weigh(s - {y});
    if y != x {
      WeighRemove(s - {y}, x);
      WeighRemove(s - {x}, y);
      assert s - {y} - {x} == s - {x} - {y};
    }
  }

  lemma WeighAdd(s: set<Node>, x: Node)
    requires x !in s
    ensures Weigh(s + {x}) == Weigh(s) + x.weight
  {
    WeighRemove(s + {x}, x);
    assert s + {x} - {x} == s;
  }

  /** Below the width of the counters the totals are the sums themselves. */
  lemma {:induction false} WeighBound(s: set<Node>)
    ensures Weigh(s) <= |s| * 0xffff_ffff
    decreases s
  {
    if s != {} {
      var x :| x in s;
      WeighRemove(s, x);
      WeighBound(s - {x});
    }
  }

  lemma PlusMod(size: nat, w: nat, total: nat)
    requires size == total % TWO_64
    ensures Plus(size, w) == (total + w) % TWO_64
  {
  }

  lemma MinusMod(size: nat, w: nat, total: nat, rest: nat)
    requires size == total % TWO_64 && total == w + rest
    ensures Minus(size, w) == rest % TWO_64
  {
  }

  lemma MinusPlus(size: nat, w: nat)
    requires size < TWO_64
    ensures Plus(Minus(size, w), w) == size
  {
  }

  lemma PlusMinus(size: nat, pending: nat, w: nat)
    ensures Plus(Minus(size, w), pending) == Minus(Plus(size, pending), w)
  {
  }

  /** A total and its limit move together. */
  lemma ShiftedUp(size: nat, shift: nat, limit: nat)
    ensures (Plus(size, shift) - (limit + shift)) % TWO_64 == (size - limit) % TWO_64
  {
  }

  lemma ShiftedDown(size: nat, shift: nat, limit: nat)
    requires shift <= limit
    ensures (Minus(size, shift) - (limit - shift)) % TWO_64 == (size - limit) % TWO_64
  {
  }

  lemma PlusOfMinus(size: nat, w: nat, more: nat)
    ensures Plus(Minus(size, w), more + w) == Plus(size, more)
  {
  }

  lemma MinusOfPlus(size: nat, w: nat)
    requires size < TWO_64
    ensures Minus(Plus(size, w), w) == size
  {
  }

  lemma PlusMore(size: nat, w: nat)
    requires size < TWO_64 && w < TWO_64
    ensures Plus(size, w) == size <==> w == 0
  {
  }

  lemma PlusZero(size: nat)
    requires size < TWO_64
    ensures Plus(size, 0) == size
  {
  }

  lemma MinusZero(size: nat)
    requires size < TWO_64
    ensures Minus(size, 0) == size
  {
  }

  lemma PlusPlus(a: nat, b: nat, w: nat)
    ensures Plus(Plus(a, b), w) == Plus(a, b + w)
  {
  }

  lemma MinusMinus(a: nat, b: nat, w: nat)
    ensures Minus(Minus(a, b), w) == Minus(a, b + w)
  {
  }

  lemma WeighBelow(s: set<Node>, all: set<Node>)
    requires s <= all && |all| <= 0x1_0000_0000
    ensures Weigh(s) % TWO_64 == Weigh(s)
  {
    WeighBound(s);
    FewerMembers(s, all);
  }

  lemma FewerMembers(s: set<Node>, all: set<Node>)
    requires s <= all
    ensures |s| <= |all|
  {
    assert all == s + (all - s);
  }

  // ---------- The books ----------

  /** The accounted nodes typed q: entries whose add or update task has run and that are not dead. */
  ghost function OfType(typed: map<Node, Queue>, q: Queue): set<Node> {
    set n | n in typed && typed[n] == q
  }

  /** The totals are the sums of the weights of the accounted nodes, of those typed window and of those typed protected. */
  ghost predicate Balanced(size: nat, windowSize: nat, protectedSize: nat, typed: map<Node, Queue>) {
    && size < TWO_64 && windowSize < TWO_64 && protectedSize < TWO_64
    && size == Weigh(typed.Keys) % TWO_64
    && windowSize == Weigh(OfType(typed, InWindow)) % TWO_64
    && protectedSize == Weigh(OfType(typed, InMainProtected)) % TWO_64
  }

  lemma BalancedNone()
    ensures Balanced(Plus(0, 0), 0, 0, map[])
  {
    assert OfType(map[], InWindow) == {} && OfType(map[], InMainProtected) == {};
  }

  lemma BalancedBounds(size: nat, windowSize: nat, protectedSize: nat, typed: map<Node, Queue>)
    requires Balanced(size, windowSize, protectedSize, typed)
    ensures windowSize < TWO_64 && protectedSize < TWO_64
  {
  }

  lemma OfTypeAdd(typed: map<Node, Queue>, n: Node, q: Queue, r: Queue)
    requires n !in typed
    ensures Weigh(OfType(typed[n := q], r)) == Weigh(OfType(typed, r)) + if r == q then n.weight else 0
  {
    if r == q {
      WeighAdd(OfType(typed, r), n);
      assert OfType(typed[n := q], r) == OfType(typed, r) + {n};
    } else {
      assert OfType(typed[n := q], r) == OfType(typed, r);
    }
  }

  lemma BalancedAdd(size: nat, w: nat, p: nat, typed: map<Node, Queue>, n: Node, q: Queue)
    requires Balanced(size, w, p, typed) && n !in typed
    ensures Balanced(Plus(size, n.weight),
                     if q == InWindow then Plus(w, n.weight) else w,
                     if q == InMainProtected then Plus(p, n.weight) else p, typed[n := q])
  {
    WeighAdd(typed.Keys, n);
    assert typed[n := q].Keys == typed.Keys + {n};
    OfTypeAdd(typed, n, q, InWindow);
    OfTypeAdd(typed, n, q, InMainProtected);
    PlusMod(size, n.weight, Weigh(typed.Keys));
    PlusMod(w, n.weight, Weigh(OfType(typed, InWindow)));
    PlusMod(p, n.weight, Weigh(OfType(typed, InMainProtected)));
    hide OfType, Weigh, Plus;
  }

  lemma BalancedRemove(size: nat, w: nat, p: nat, typed: map<Node, Queue>, n: Node)
    requires Balanced(size, w, p, typed) && n in typed
    ensures Balanced(Minus(size, n.weight),
                     if typed[n] == InWindow then Minus(w, n.weight) else w,
                     if typed[n] == InMainProtected then Minus(p, n.weight) else p, typed - {n})
  {
    var rest := typed - {n};
    WeighRemove(typed.Keys, n);
    assert rest.Keys == typed.Keys - {n};
    assert rest[n := typed[n]] == typed;
    OfTypeAdd(rest, n, typed[n], InWindow);
    OfTypeAdd(rest, n, typed[n], InMainProtected);
    MinusMod(size, n.weight, Weigh(typed.Keys), Weigh(rest.Keys));
    hide OfType, Weigh, Minus;
    if typed[n] == InWindow {
      MinusMod(w, n.weight, Weigh(OfType(typed, InWindow)), Weigh(OfType(rest, InWindow)));
    } else if typed[n] == InMainProtected {
      MinusMod(p, n.weight, Weigh(OfType(typed, InMainProtected)), Weigh(OfType(rest, InMainProtected)));
    }
  }

  lemma BalancedRetype(size: nat, w: nat, p: nat, typed: map<Node, Queue>, n: Node, q: Queue)
    requires Balanced(size, w, p, typed) && n in typed && q != typed[n]
    ensures Balanced(size,
                     if typed[n] == InWindow then Minus(w, n.weight) else if q == InWindow then Plus(w, n.weight) else w,
                     if typed[n] == InMainProtected then Minus(p, n.weight) else if q == InMainProtected then Plus(p, n.weight) else p,
                     typed[n := q])
  {
    MinusPlus(size, n.weight);
    hide Balanced, Plus, Minus, OfType;
    BalancedRemove(size, w, p, typed, n);
    BalancedAdd(Minus(size, n.weight), if typed[n] == InWindow then Minus(w, n.weight) else w,
                if typed[n] == InMainProtected then Minus(p, n.weight) else p, typed - {n}, n, q);
    assert (typed - {n})[n := q] == typed[n := q];
  }

  /** The three queues as lists. */
  datatype Contents = Contents(window: seq<Node>, probation: seq<Node>, protected: seq<Node>) {
    function Get(q: Queue): seq<Node> {
      match q
      case InWindow => window
      case InMainProbation => probation
      case InMainProtected => protected
    }

    function Set(q: Queue, l: seq<Node>): Contents {
      match q
      case InWindow => this.(window := l)
      case InMainProbation => this.(probation := l)
      case InMainProtected => this.(protected := l)
    }
  }

  lemma GetSet(c: Contents, q: Queue, l: seq<Node>)
    ensures c.Set(q, l).Get(q) == l
    ensures forall r :: r != q ==> c.Set(q, l).Get(r) == c.Get(r)
  {
  }

  method PushOn(d: Linked, n: Node, front: bool)
    requires d.Valid() && n !in d.items && Loose(n)
    modifies d, d.items`prev, d.items`next, n`prev, n`next
    ensures d.Valid() && d.items == if front then [n] + old(d.items) else old(d.items) + [n]
  {
    hide Linked.Valid;
    if front {
      d.PushFront(n);
    } else {
      d.PushBack(n);
    }
  }

  method MoveOn(d: Linked, n: Node, front: bool)
    requires d.Valid() && n in d.items
    modifies d, d.items`prev, d.items`next
    ensures d.Valid() && d.items == if front then [n] + Remove(old(d.items), n) else Remove(old(d.items), n) + [n]
    ensures forall m :: m in d.items <==> m in old(d.items)
  {
    hide Linked.Valid, Remove;
    if front {
      d.MoveToFront(n);
    } else {
      d.MoveToBack(n);
    }
  }

  class Policy {
    const window: Linked
    const probation: Linked
    const protected: Linked
    var maximum: nat
    var weightedSize: nat
    var windowMaximum: nat
    var windowWeightedSize: nat
    var mainProtectedMaximum: nat
    var mainProtectedWeightedSize: nat
    var adjustment: int64

    /** The accounted nodes with their types. */
    ghost var typed: map<Node, Queue>
    /** The weight an update that is under way has not added yet. */
    ghost var pending: nat
    /** What was evicted, in order. */
    ghost var evicted: seq<Node>

    constructor ()
      ensures Valid() && pending == 0 && typed == map[] && Lists() == Contents([], [], []) && maximum == 0
      ensures fresh(window) && fresh(probation) && fresh(protected)
    {
      window := new Linked();
      probation := new Linked();
      protected := new Linked();
      maximum, weightedSize, windowMaximum, windowWeightedSize := 0, 0, 0, 0;
      mainProtectedMaximum, mainProtectedWeightedSize, adjustment := 0, 0, 0;
      typed, pending, evicted := map[], 0, [];
      new;
      BalancedNone();
    }

    function Of(q: Queue): Linked {
      match q
      case InWindow => window
      case InMainProbation => probation
      case InMainProtected => protected
    }

    ghost function Lists(): Contents
      reads window`items, probation`items, protected`items
    {
      Contents(window.items, probation.items, protected.items)
    }

    /** The three deques hold disjoint lists: a node can only be on the one its type names. */
    ghost predicate Queues()
      reads window, probation, protected
      reads window.items`prev, window.items`next, window.items`queueType
      reads probation.items`prev, probation.items`next, probation.items`queueType
      reads protected.items`prev, protected.items`next, protected.items`queueType
    {
      && window != probation && window != protected && probation != protected
      && window.Valid() && probation.Valid() && protected.Valid()
      && Typed(window.items, InWindow) && Typed(probation.items, InMainProbation) && Typed(protected.items, InMainProtected)
    }

    ghost predicate OnQueue(n: Node)
      reads window`items, probation`items, protected`items, n`queueType
    {
      n in Of(n.queueType).items
    }

    /** A node that is on no queue has no links. */
    ghost predicate Fits(n: Node)
      reads window`items, probation`items, protected`items, n`queueType, n`prev, n`next
    {
      OnQueue(n) || Loose(n)
    }

    lemma Disjoint()
      requires Queues()
      ensures forall q, r: Queue :: q != r ==> Of(q) != Of(r)
      ensures forall q, r: Queue, k :: q != r && 0 <= k < |Of(q).items| ==> Of(q).items[k] !in Of(r).items
    {
      hide Linked.Valid;
      forall q, r: Queue, k | q != r && 0 <= k < |Of(q).items| ensures Of(q).items[k] !in Of(r).items {
        assert Typed(Of(q).items, q) && Typed(Of(r).items, r);
      }
    }

    /** Every linked node is one of s, and a node of s that is on no queue has no links. */
    ghost predicate Placed(s: set<Node>)
      reads window`items, probation`items, protected`items, s`queueType, s`prev, s`next
    {
      && (forall q, n :: n in Of(q).items ==> n in s)
      && (forall n :: n in s ==> Fits(n))
    }

    /** The books name the types of the accounted nodes, none of which is dead. */
    ghost predicate Typing()
      reads `typed, typed.Keys`queueType, typed.Keys`state
    {
      forall n :: n in typed ==> n.queueType == typed[n] && n.state != Dead
    }

    /** The heap agrees with the books. */
    ghost predicate Matches()
      reads `typed, window, probation, protected
      reads window.items`prev, window.items`next, window.items`queueType
      reads probation.items`prev, probation.items`next, probation.items`queueType
      reads protected.items`prev, protected.items`next, protected.items`queueType
      reads typed.Keys`state, typed.Keys`queueType, typed.Keys`prev, typed.Keys`next
    {
      Queues() && Placed(typed.Keys) && Typing()
    }

    /** Takes n off the queue it is on, if any. */
    method Drop(n: Node)
      requires Matches() && Fits(n)
      modifies window, probation, protected, typed.Keys`prev, typed.Keys`next
      ensures Matches() && Loose(n) && !OnQueue(n)
      ensures Lists() == old(Lists()).Set(n.queueType, Remove(old(Lists()).Get(n.queueType), n))
    {
      hide Queues, Remove;
      DropOff(n);
      assert Placed(typed.Keys) by {
        forall m | m in typed ensures Fits(m) {
          assert old(Fits(m));
        }
      }
    }

    method DropOff(n: Node)
      requires Queues() && Fits(n)
      modifies Of(n.queueType), Of(n.queueType).items`prev, Of(n.queueType).items`next
      ensures Queues() && Loose(n) && !OnQueue(n)
      ensures Lists() == old(Lists()).Set(n.queueType, Remove(old(Lists()).Get(n.queueType), n))
      ensures forall m :: m in Of(n.queueType).items <==> m in old(Of(n.queueType).items) && m != n
      ensures forall q :: q != n.queueType ==> Of(q).items == old(Of(q).items)
      ensures forall m :: m in old(Of(n.queueType).items) ==> m.queueType == n.queueType
    {
      hide Linked.Valid, Remove;
      Disjoint();
      OwnQueues();
      var d := Of(n.queueType);
      d.Delete(n);
      forall q | q != n.queueType ensures Of(q).Valid() {
        ghost var e := Of(q);
        assert forall k :: 0 <= k < |e.items| ==> e.items[k].prev == old(e.items[k].prev) && e.items[k].next == old(e.items[k].next);
        assert old(e.Valid());
      }
      assert window == Of(InWindow) && probation == Of(InMainProbation) && protected == Of(InMainProtected);
      assert Typed(d.items, n.queueType) by { StillTyped(old(d.items), d.items, n.queueType); }
    }

    /** Puts a node without links at the back, or at the front, of the queue it is typed for. */
    method Push(n: Node, front: bool)
      requires Matches() && n in typed && Loose(n) && !OnQueue(n)
      modifies window, probation, protected, typed.Keys`prev, typed.Keys`next, n`prev, n`next
      ensures Matches() && OnQueue(n)
      ensures Lists() == old(Lists()).Set(n.queueType, if front then [n] + old(Lists()).Get(n.queueType) else old(Lists()).Get(n.queueType) + [n])
    {
      hide Queues;
      PushOnto(n, front);
      assert Placed(typed.Keys) by {
        forall m | m in typed ensures Fits(m) {
          assert old(Fits(m));
        }
      }
    }

    method PushOnto(n: Node, front: bool)
      requires Queues() && Loose(n) && !OnQueue(n)
      modifies Of(n.queueType), Of(n.queueType).items`prev, Of(n.queueType).items`next, n`prev, n`next
      ensures Queues()
      ensures Lists() == old(Lists()).Set(n.queueType, if front then [n] + old(Lists()).Get(n.queueType) else old(Lists()).Get(n.queueType) + [n])
      ensures forall m :: m in Of(n.queueType).items <==> m in old(Of(n.queueType).items) || m == n
      ensures forall q :: q != n.queueType ==> Of(q).items == old(Of(q).items)
      ensures forall m :: m in old(Of(n.queueType).items) ==> m.queueType == n.queueType
    {
      hide Linked.Valid;
      Disjoint();
      OwnQueues();
      var d := Of(n.queueType);
      PushOn(d, n, front);
      forall q | q != n.queueType ensures Of(q).Valid() {
        ghost var e := Of(q);
        assert forall k :: 0 <= k < |e.items| ==> e.items[k].prev == old(e.items[k].prev) && e.items[k].next == old(e.items[k].next);
        assert old(e.Valid());
      }
      assert window == Of(InWindow) && probation == Of(InMainProbation) && protected == Of(InMainProtected);
    }

    lemma OwnQueues()
      requires Queues()
      ensures forall q, m :: m in Of(q).items ==> m.queueType == q
    {
      hide Linked.Valid;
      forall q, m | m in Of(q).items ensures m.queueType == q {
        assert Typed(Of(q).items, q);
      }
    }

    /** Moves n to the back, or to the front, of the queue it is on. */
    method Move(n: Node, front: bool)
      requires Matches() && OnQueue(n)
      modifies window, probation, protected, typed.Keys`prev, typed.Keys`next
      ensures Matches() && OnQueue(n)
      ensures var rest := Remove(old(Lists()).Get(n.queueType), n);
        Lists() == old(Lists()).Set(n.queueType, if front then [n] + rest else rest + [n])
    {
      hide Queues, Remove;
      MoveAlong(n, front);
      assert Placed(typed.Keys) by {
        forall m | m in typed ensures Fits(m) {
          assert old(Fits(m));
        }
      }
    }

    method MoveAlong(n: Node, front: bool)
      requires Queues() && OnQueue(n)
      modifies Of(n.queueType), Of(n.queueType).items`prev, Of(n.queueType).items`next
      ensures Queues()
      ensures var rest := Remove(old(Lists()).Get(n.queueType), n);
        Lists() == old(Lists()).Set(n.queueType, if front then [n] + rest else rest + [n])
      ensures forall m :: m in Of(n.queueType).items <==> m in old(Of(n.queueType).items)
      ensures forall q :: q != n.queueType ==> Of(q).items == old(Of(q).items)
      ensures forall m :: m in old(Of(n.queueType).items) ==> m.queueType == n.queueType
    {
      hide Linked.Valid, Remove;
      Disjoint();
      OwnQueues();
      var d := Of(n.queueType);
      MoveOn(d, n, front);
      forall q | q != n.queueType ensures Of(q).Valid() {
        ghost var e := Of(q);
        assert forall k :: 0 <= k < |e.items| ==> e.items[k].prev == old(e.items[k].prev) && e.items[k].next == old(e.items[k].next);
        assert old(e.Valid());
      }
      assert window == Of(InWindow) && probation == Of(InMainProbation) && protected == Of(InMainProtected);
      assert Typed(d.items, n.queueType) by { StillTyped(old(d.items), d.items, n.queueType); }
    }

    /** Gives n the type of o, and its place on the queue if o is on it. */
    method Inherit(n: Node, o: Node)
      requires Queues() && Placed(typed.Keys) && Typing() && n !in typed && Loose(n) && Fits(o) && n != o
      modifies window, probation, protected, typed.Keys`prev, typed.Keys`next, n`prev, n`next, n`queueType
      ensures Queues() && Placed(typed.Keys + {n}) && Typing() && n.queueType == o.queueType && Loose(o) && !OnQueue(o)
      ensures OnQueue(n) <==> old(OnQueue(o))
      ensures Lists() == old(Lists()).Set(o.queueType, Replace(old(Lists()).Get(o.queueType), o, n))
    {
      hide Queues, Replace;
      ReplaceOn(n, o);
      assert Placed(typed.Keys + {n}) by {
        forall m | m in typed ensures Fits(m) {
          assert old(Fits(m));
        }
      }
    }

    method ReplaceOn(n: Node, o: Node)
      requires Queues() && Loose(n) && Fits(o) && n != o && forall q :: n !in Of(q).items
      modifies Of(o.queueType), Of(o.queueType).items`prev, Of(o.queueType).items`next, n`prev, n`next, n`queueType
      ensures Queues() && n.queueType == o.queueType && Loose(o)
      ensures Lists() == old(Lists()).Set(o.queueType, Replace(old(Lists()).Get(o.queueType), o, n))
      ensures o !in old(Of(o.queueType).items) ==> Loose(n)
      ensures forall m :: m in Of(o.queueType).items <==> (m in old(Of(o.queueType).items) && m != o) || (m == n && old(OnQueue(o)))
      ensures forall q :: q != o.queueType ==> Of(q).items == old(Of(q).items)
      ensures forall m :: m in old(Of(o.queueType).items) ==> m.queueType == o.queueType
    {
      hide Linked.Valid, Replace;
      Disjoint();
      OwnQueues();
      n.queueType := o.queueType;
      var d := Of(n.queueType);
      d.UpdateNode(n, o);
      forall q | q != n.queueType ensures Of(q).Valid() {
        ghost var e := Of(q);
        assert forall k :: 0 <= k < |e.items| ==> e.items[k].prev == old(e.items[k].prev) && e.items[k].next == old(e.items[k].next);
        assert old(e.Valid());
      }
      assert window == Of(InWindow) && probation == Of(InMainProbation) && protected == Of(InMainProtected);
      forall k | 0 <= k < |d.items| ensures d.items[k].queueType == n.queueType {
        assert d.items[k] in d.items;
      }
    }

    // ---------- Accounts ----------

    /** What is booked of one node. */
    lemma MatchesAt(n: Node)
      requires Matches()
      ensures n in typed ==> n.queueType == typed[n] && n.state != Dead && Fits(n)
      ensures OnQueue(n) ==> n in typed
      ensures Of(n.queueType).Valid() && Of(n.queueType).items == Lists().Get(n.queueType)
    {
    }

    ghost predicate Ledger()
      reads `weightedSize, `windowWeightedSize, `mainProtectedWeightedSize, `typed, `pending
    {
      weightedSize < TWO_64 && Balanced(Plus(weightedSize, pending), windowWeightedSize, mainProtectedWeightedSize, typed)
    }

    ghost predicate Limits()
      reads `maximum, `windowMaximum, `mainProtectedMaximum
    {
      maximum <= MAX_INT64 && windowMaximum + mainProtectedMaximum <= maximum
    }

    ghost predicate Valid()
      reads `typed, `pending, `weightedSize, `windowWeightedSize, `mainProtectedWeightedSize, `maximum, `windowMaximum, `mainProtectedMaximum
      reads window, probation, protected
      reads window.items`prev, window.items`next, window.items`queueType
      reads probation.items`prev, probation.items`next, probation.items`queueType
      reads protected.items`prev, protected.items`next, protected.items`queueType
      reads typed.Keys`state, typed.Keys`queueType, typed.Keys`prev, typed.Keys`next
    {
      Matches() && Ledger() && Limits()
    }

    lemma PlacedLess(s: set<Node>, n: Node)
      requires Queues() && Placed(s) && !OnQueue(n)
      ensures Placed(s - {n})
    {
      OwnQueues();
      hide Queues, Loose;
    }

    /** A node that is not dead is taken off the accounts. */
    method MakeDead(n: Node)
      requires n in typed <==> n.state != Dead
      requires n in typed ==> n.queueType == typed[n]
      modifies `weightedSize, `windowWeightedSize, `mainProtectedWeightedSize, `typed, n`state
      ensures n.state == Dead && typed == old(typed) - {n} && typed.Keys == old(typed.Keys) - {n}
      ensures Struck(n, old(typed), old(weightedSize), old(windowWeightedSize), old(mainProtectedWeightedSize))
      ensures old(Matches() && !OnQueue(n)) ==> Matches()
    {
      hide Queues, Placed, Minus;
      ghost var rest := typed - {n};
      assert rest.Keys == typed.Keys - {n};
      assert Queues() && Placed(typed.Keys) && !OnQueue(n) ==> Placed(rest.Keys) by {
        if Queues() && Placed(typed.Keys) && !OnQueue(n) {
          PlacedLess(typed.Keys, n);
        }
      }
      if n.state != Dead {
        if n.queueType == InWindow {
          windowWeightedSize := Minus(windowWeightedSize, n.weight);
        } else if n.queueType == InMainProtected {
          mainProtectedWeightedSize := Minus(mainProtectedWeightedSize, n.weight);
        }
        weightedSize := Minus(weightedSize, n.weight);
        typed := rest;
        n.state := Dead;
      } else {
        assert rest == typed;
      }
    }

    /** The totals since then have lost the weight of n, if it was accounted for, and nothing else. */
    ghost predicate Struck(n: Node, typed0: map<Node, Queue>, size: nat, w: nat, p: nat)
      reads `weightedSize, `windowWeightedSize, `mainProtectedWeightedSize
    {
      if n in typed0 then
        && weightedSize == Minus(size, n.weight)
        && windowWeightedSize == (if typed0[n] == InWindow then Minus(w, n.weight) else w)
        && mainProtectedWeightedSize == (if typed0[n] == InMainProtected then Minus(p, n.weight) else p)
      else weightedSize == size && windowWeightedSize == w && mainProtectedWeightedSize == p
    }

    /** Takes n off its queue and off the accounts. */
    method Delete(n: Node)
      requires Valid() && (n in typed || (n.state == Dead && !OnQueue(n) && Loose(n)))
      modifies `weightedSize, `windowWeightedSize, `mainProtectedWeightedSize, `typed, n`state
      modifies window, probation, protected, typed.Keys`prev, typed.Keys`next
      ensures Valid() && n.state == Dead && Loose(n) && !OnQueue(n) && typed == old(typed) - {n}
      ensures weightedSize == if n in old(typed) then Minus(old(weightedSize), n.weight) else old(weightedSize)
      ensures Lists() == old(Lists()).Set(n.queueType, Remove(old(Lists()).Get(n.queueType), n))
    {
      hide Matches, Limits, Remove, Balanced, Plus, Minus;
      MatchesAt(n);
      Drop(n);
      assert n in typed <==> n.state != Dead;
      MakeDead(n);
      Rebalance(n, old(typed), old(weightedSize), old(windowWeightedSize), old(mainProtectedWeightedSize));
    }

    /** The accounts after one node has been taken off them. */
    lemma Rebalance(n: Node, typed0: map<Node, Queue>, size: nat, w: nat, p: nat)
      requires size < TWO_64 && Balanced(Plus(size, pending), w, p, typed0) && typed == typed0 - {n}
      requires Struck(n, typed0, size, w, p)
      ensures Ledger()
    {
      hide Balanced;
      if n in typed0 {
        BalancedRemove(Plus(size, pending), w, p, typed0, n);
        PlusMinus(size, pending, n.weight);
      } else {
        assert typed == typed0;
      }
    }

    // ---------- Tasks ----------

    /** The cache's callback, as far as the policy is concerned: the entry leaves the queues and the accounts, dead. */
    method EvictNode(n: Node)
      requires Valid() && n in typed
      modifies `weightedSize, `windowWeightedSize, `mainProtectedWeightedSize, `typed, `evicted, n`state
      modifies window, probation, protected, typed.Keys`prev, typed.Keys`next
      ensures Valid() && n.state == Dead && Loose(n) && !OnQueue(n) && typed == old(typed) - {n}
      ensures Lists() == old(Lists()).Set(n.queueType, Remove(old(Lists()).Get(n.queueType), n))
      ensures evicted == old(evicted) + [n] && weightedSize == Minus(old(weightedSize), n.weight)
    {
      hide Matches, Ledger, Limits, Remove, Minus;
      Delete(n);
      assert typed - {n} == typed;
      MakeDead(n);
      evicted := evicted + [n];
    }

    /** Moves n to the back of its queue, if it is on it. */
    method Reorder(n: Node)
      requires Matches() && Fits(n)
      modifies window, probation, protected, typed.Keys`prev, typed.Keys`next
      ensures Matches()
      ensures Lists() == old(Lists()).Set(n.queueType, ToBack(old(Lists()).Get(n.queueType), n))
    {
      assert Of(n.queueType).Valid() && (OnQueue(n) ==> n in typed);
      hide Queues, Placed, Typing, Remove;
      var present := Of(n.queueType).Contains(n);
      if present {
        Move(n, false);
      }
    }

    /** Changes the type of a node that is on no queue. */
    method Retype(n: Node, q: Queue)
      requires Matches() && n in typed && !OnQueue(n) && Loose(n)
      modifies `typed, n`queueType
      ensures Matches() && !OnQueue(n) && n.queueType == q && typed == old(typed)[n := q]
    {
      hide Linked.Valid;
      OwnQueues();
      typed := typed[n := q];
      n.queueType := q;
      assert typed.Keys == old(typed.Keys);
      assert Placed(typed.Keys) by {
        forall m | m in typed ensures Fits(m) {
          assert old(Fits(m));
        }
      }
    }

    /** Moves a linked node to the back of another queue. */
    method Transfer(n: Node, q: Queue)
      requires Matches() && n in typed && OnQueue(n) && q != typed[n]
      modifies `typed, n`queueType
      modifies window, probation, protected, typed.Keys`prev, typed.Keys`next
      ensures Matches() && n.queueType == q && typed == old(typed)[n := q]
      ensures var from := old(typed)[n];
        Lists() == old(Lists()).Set(from, Remove(old(Lists()).Get(from), n)).Set(q, old(Lists()).Get(q) + [n])
    {
      hide Matches, Remove, OnQueue, Loose, Fits;
      assert n.queueType == typed[n] && Fits(n) by { MatchesAt(n); }
      Drop(n);
      Retype(n, q);
      assert typed.Keys == old(typed.Keys);
      Push(n, false);
    }

    method Promote(n: Node)
      requires Valid() && n in typed && OnQueue(n) && typed[n] == InMainProbation
      modifies `mainProtectedWeightedSize, `typed, n`queueType
      modifies window, probation, protected, typed.Keys`prev, typed.Keys`next
      ensures Valid() && typed == old(typed)[n := InMainProtected]
      ensures Lists() == old(Lists()).(probation := Remove(old(Lists()).probation, n), protected := old(Lists()).protected + [n])
    {
      hide Matches, Limits, Remove, Balanced, Plus;
      BalancedRetype(Plus(weightedSize, pending), windowWeightedSize, mainProtectedWeightedSize, typed, n, InMainProtected);
      mainProtectedWeightedSize := Plus(mainProtectedWeightedSize, n.weight);
      Transfer(n, InMainProtected);
    }

    method ReorderProbation(n: Node)
      requires Valid() && (n in typed || (!OnQueue(n) && Loose(n))) && n.queueType == InMainProbation
      modifies `mainProtectedWeightedSize, `typed, n`queueType
      modifies window, probation, protected, typed.Keys`prev, typed.Keys`next
      ensures Valid()
      ensures Lists() == Accessed(old(Lists()), n, InMainProbation, n.weight, mainProtectedMaximum)
      ensures typed == TypedAfter(old(typed), old(Lists()), n, mainProtectedMaximum)
    {
      hide Matches, Ledger, Limits, Remove, Linked.Valid;
      assert Of(n.queueType).Valid() && Fits(n) && Of(n.queueType).items == Lists().Get(n.queueType)
             && (OnQueue(n) ==> n in typed) && (n in typed ==> typed[n] == n.queueType) by {
        MatchesAt(n);
      }
      var present := probation.Contains(n);
      if !present {
        // a stale access to an entry that is no longer present
      } else if n.weight > mainProtectedMaximum {
        Reorder(n);
      } else {
        Promote(n);
      }
    }

    /** A read of n: it becomes the youngest of its queue, or is promoted from probation to protected. */
    method Access(n: Node)
      requires Valid() && (n in typed || (!OnQueue(n) && Loose(n)))
      modifies `mainProtectedWeightedSize, `typed, n`queueType
      modifies window, probation, protected, typed.Keys`prev, typed.Keys`next
      ensures Valid()
      ensures Lists() == Accessed(old(Lists()), n, old(n.queueType), n.weight, mainProtectedMaximum)
      ensures typed == TypedAfter(old(typed), old(Lists()), n, mainProtectedMaximum)
    {
      hide Matches, Ledger, Limits, Remove;
      assert Fits(n) && (n in typed ==> typed[n] == n.queueType) by {
        MatchesAt(n);
      }
      if n.queueType == InMainProbation {
        ReorderProbation(n);
      } else {
        Reorder(n);
      }
    }

    /** Enters a node without links in the books. */
    ghost method Enter(n: Node)
      requires Matches() && n !in typed && Loose(n) && n.state != Dead
      modifies `typed
      ensures Matches() && !OnQueue(n) && typed == old(typed)[n := n.queueType]
    {
      hide Queues;
      typed := typed[n := n.queueType];
      assert typed.Keys == old(typed.Keys) + {n};
    }

    /** The task of a new entry. */
    method Add(n: Node)
      requires Valid() && pending == 0 && n !in typed && n.state != Dead && n.queueType == InWindow && Loose(n)
      modifies `weightedSize, `windowWeightedSize, `mainProtectedWeightedSize, `typed, `evicted, n`state, n`prev, n`next
      modifies window, probation, protected, typed.Keys`prev, typed.Keys`next
      ensures Valid() && pending == 0
      ensures old(n.state) != Alive ==> Lists() == old(Lists()) && typed == old(typed)[n := InWindow] && evicted == old(evicted)
      ensures old(n.state) == Alive && n.weight > maximum ==>
        Lists() == old(Lists()) && typed == old(typed) && evicted == old(evicted) + [n] && n.state == Dead
      ensures old(n.state) == Alive && n.weight <= maximum ==>
        && typed == old(typed)[n := InWindow] && evicted == old(evicted)
        && Lists() == old(Lists()).(window := if n.weight > windowMaximum then [n] + old(Lists()).window else old(Lists()).window + [n])
    {
      hide Queues, Placed, Typing, Limits, Remove, Balanced, Plus;
      assert Balanced(Plus(Plus(weightedSize, n.weight), 0), Plus(windowWeightedSize, n.weight), mainProtectedWeightedSize, typed[n := InWindow]) by {
        BalancedAdd(Plus(weightedSize, 0), windowWeightedSize, mainProtectedWeightedSize, typed, n, InWindow);
        PlusZero(weightedSize);
        PlusZero(Plus(weightedSize, n.weight));
      }
      weightedSize := Plus(weightedSize, n.weight);
      windowWeightedSize := Plus(windowWeightedSize, n.weight);
      Enter(n);
      if n.state == Alive {
        if n.weight > maximum {
          assert Remove(Lists().window, n) == Lists().window by {
            RemoveAbsent(Lists().window, n, n);
          }
          assert typed - {n} == old(typed);
          EvictNode(n);
        } else {
          Push(n, n.weight > windowMaximum);
        }
      }
    }

    method Succeed(n: Node, o: Node)
      requires Matches() && n !in typed && n.state != Dead && Loose(n) && n != o
      requires o in typed || (!OnQueue(o) && Loose(o))
      modifies `typed, n`queueType, n`prev, n`next
      modifies window, probation, protected, typed.Keys`prev, typed.Keys`next
      ensures Matches() && typed == old(typed)[n := o.queueType] && n.queueType == o.queueType && Loose(o) && !OnQueue(o)
      ensures Lists() == old(Lists()).Set(o.queueType, Replace(old(Lists()).Get(o.queueType), o, n))
      ensures OnQueue(n) <==> old(OnQueue(o))
    {
      hide Queues, Placed, Replace, Typing;
      assert Fits(o) by { MatchesAt(o); }
      Inherit(n, o);
      Enlist(n);
    }

    ghost method Enlist(n: Node)
      requires Queues() && Placed(typed.Keys + {n}) && Typing() && n.state != Dead
      modifies `typed
      ensures Matches() && typed == old(typed)[n := n.queueType]
    {
      hide Queues, Placed;
      ghost var more := typed[n := n.queueType];
      assert more.Keys == typed.Keys + {n};
      typed := more;
    }

    /** n takes the type, the place on the queue and the place in the books of o, which is dead afterwards. */
    method UpdateNode(n: Node, o: Node)
      requires Valid() && pending == 0 && n !in typed && n.state != Dead && Loose(n) && n != o
      requires o in typed || (o.state == Dead && !OnQueue(o) && Loose(o))
      modifies `weightedSize, `windowWeightedSize, `mainProtectedWeightedSize, `typed, n`queueType, n`prev, n`next, o`state
      modifies window, probation, protected, typed.Keys`prev, typed.Keys`next
      ensures Matches() && Limits() && typed == (old(typed) - {o})[n := o.queueType] && n.queueType == o.queueType && o.state == Dead && Loose(o)
      ensures weightedSize < TWO_64 && Balanced(weightedSize, windowWeightedSize, mainProtectedWeightedSize, old(typed) - {o})
      ensures Lists() == old(Lists()).Set(o.queueType, Replace(old(Lists()).Get(o.queueType), o, n))
      ensures OnQueue(n) <==> old(OnQueue(o))
    {
      hide Matches, Limits, Replace, Balanced, Plus, Minus;
      Succeed(n, o);
      ghost var size, w, p := weightedSize, windowWeightedSize, mainProtectedWeightedSize;
      assert (o in typed <==> o.state != Dead) && (o in typed ==> o.queueType == typed[o]) by { MatchesAt(o); }
      MakeDead(o);
      assert typed == (old(typed) - {o})[n := o.queueType];
      assert Balanced(weightedSize, windowWeightedSize, mainProtectedWeightedSize, old(typed) - {o}) by {
        PlusZero(size);
        if o in old(typed) {
          BalancedRemove(size, w, p, old(typed), o);
        } else {
          assert old(typed) - {o} == old(typed);
        }
      }
    }

    /**
      The task of a replaced entry. Of two nodes, the new one takes the place of the old one. Of one
      node in both roles, which is what a SetIfAbsent that makes its entry expire leaves behind, it
      kills a node that may still be in the map, counts its weight for good, and tears its queue.
    */
    method Update(n: Node, o: Node) returns (panics: bool)
      requires Valid() && pending == 0 && (n != o ==> n !in typed && n.state != Dead && Loose(n))
      requires o in typed || (o.state == Dead && !OnQueue(o) && Loose(o))
      modifies `weightedSize, `windowWeightedSize, `mainProtectedWeightedSize, `typed, `evicted, `pending
      modifies n`state, n`queueType, n`prev, n`next, o`state
      modifies window, probation, protected, typed.Keys`prev, typed.Keys`next
      ensures o.state == Dead && pending == 0
      ensures evicted == if n.weight > maximum && !panics then old(evicted) + [n] else old(evicted)
      ensures n != o ==> Valid() && !panics
      ensures n != o && n.weight > maximum ==> typed == old(typed) - {o} && n.state == Dead
      ensures n != o && n.weight <= maximum ==>
        && typed.Keys == old(typed.Keys) - {o} + {n} && n.state == old(n.state)
        && (OnQueue(n) <==> old(OnQueue(o)))
      ensures n != o ==>
        Lists() == Settled(Substituted(old(Lists()), n, o, o.queueType), n, o.queueType, maximum, windowMaximum, mainProtectedMaximum)
      ensures n == o ==> typed == old(typed) - {n}
      ensures n == o ==> (panics <==> Stuck(old(Lists()), n, old(n.queueType), maximum, windowMaximum, mainProtectedMaximum))
      ensures n == o && !panics ==> Overcounted(n) && (Ledger() <==> n.weight == 0)
      ensures n == o && !panics ==>
        var l, d := old(Lists()).Get(old(n.queueType)), Of(old(n.queueType));
        && (d.Valid() <==> n !in l || |l| == 1)
        && (n in l && |l| > 1 ==> forall m :: !d.Represents(m))
    {
      if n == o {
        panics := UpdateItself(n);
      } else {
        Supersede(n, o);
        panics := false;
      }
    }

    /** The totals are those of the accounted nodes and the weight of n, which is not one of them. */
    ghost predicate Overcounted(n: Node)
      reads `weightedSize, `windowWeightedSize, `mainProtectedWeightedSize, `typed, n`queueType
    {
      && weightedSize < TWO_64 && windowWeightedSize < TWO_64 && mainProtectedWeightedSize < TWO_64
      && n !in typed
      && Balanced(Minus(weightedSize, n.weight),
                  if n.queueType == InWindow then Minus(windowWeightedSize, n.weight) else windowWeightedSize,
                  if n.queueType == InMainProtected then Minus(mainProtectedWeightedSize, n.weight) else mainProtectedWeightedSize, typed)
    }

    /** The statements of update for one node in both roles. */
    method UpdateItself(n: Node) returns (panics: bool)
      requires Valid() && pending == 0
      requires n in typed || (n.state == Dead && !OnQueue(n) && Loose(n))
      modifies `weightedSize, `windowWeightedSize, `mainProtectedWeightedSize, `typed, `evicted, n`state, n`queueType
      modifies window, probation, protected, typed.Keys`prev, typed.Keys`next, n`prev, n`next
      ensures n.state == Dead && typed == old(typed) - {n}
      ensures evicted == if n.weight > maximum then old(evicted) + [n] else old(evicted)
      ensures panics <==> Stuck(old(Lists()), n, old(n.queueType), maximum, windowMaximum, mainProtectedMaximum)
      ensures !panics ==> Overcounted(n) && (Ledger() <==> n.weight == 0)
      ensures !panics ==>
        var l, d := old(Lists()).Get(old(n.queueType)), Of(old(n.queueType));
        && (d.Valid() <==> n !in l || |l| == 1)
        && (n in l && |l| > 1 ==> forall m :: !d.Represents(m))
    {
      hide Valid, Balanced, Plus, Linked.Valid, Linked.Torn, Linked.Represents, Linked.After, Stuck, Overcounted, Ledger;
      var d := Of(n.queueType);
      assert d.items == Lists().Get(n.queueType) && Of(InMainProtected) == protected;
      UpdateNodeItself(n);
      ghost var size, w, p := weightedSize, windowWeightedSize, mainProtectedWeightedSize;
      panics := TouchDead(n, d);
      if !panics {
        weightedSize := Plus(weightedSize, n.weight);
        assert Overcounted(n) && (Ledger() <==> n.weight == 0) by { OneTooMany(n, size, w, p); }
      }
    }

    /** The statements of updateNode for one node in both roles. */
    method UpdateNodeItself(n: Node)
      requires Valid() && pending == 0
      requires n in typed || (n.state == Dead && !OnQueue(n) && Loose(n))
      modifies `weightedSize, `windowWeightedSize, `mainProtectedWeightedSize, `typed, n`state
      modifies Of(n.queueType), typed.Keys`prev, typed.Keys`next, n`prev, n`next
      ensures n.state == Dead && typed == old(typed) - {n} && Lists() == old(Lists())
      ensures weightedSize < TWO_64 && Balanced(weightedSize, windowWeightedSize, mainProtectedWeightedSize, typed)
      ensures Of(n.queueType).After(n)
      ensures n.queueType == InMainProbation ==> protected.Valid() && n !in protected.items && protected != probation
      ensures forall q, m :: m in Of(q).items ==> m in old(typed)
    {
      hide Matches, Limits, Balanced, Plus, Minus, Linked.Valid, Linked.Torn, Linked.Represents, Linked.After, NoDup, Replace;
      var d := Of(n.queueType);
      assert d.Valid() && d.Fits(n) && (n in typed <==> n.state != Dead) && (n in typed ==> n.queueType == typed[n]) by {
        MatchesAt(n);
      }
      assert n.queueType != InMainProtected ==>
        d != protected && n !in protected.items && forall k :: 0 <= k < |protected.items| ==> protected.items[k] !in d.items by {
        if n.queueType != InMainProtected {
          OthersApart(n, n.queueType);
        }
      }
      assert protected.Valid() && probation != protected && forall q, m :: m in Of(q).items ==> m in typed by { QueuesValid(); }
      d.UpdateNode(n, n);
      if n.queueType != InMainProtected {
        assert forall k :: 0 <= k < |protected.items| ==>
          protected.items[k].prev == old(protected.items[k].prev) && protected.items[k].next == old(protected.items[k].next);
        assert protected.Valid() by { assert old(protected.Valid()); }
      }
      MakeDead(n);
      assert Of(n.queueType) == d && d.After(n);
      assert weightedSize < TWO_64 && Balanced(weightedSize, windowWeightedSize, mainProtectedWeightedSize, typed) by {
        Rebalance(n, old(typed), old(weightedSize), old(windowWeightedSize), old(mainProtectedWeightedSize));
        PlusZero(weightedSize);
      }
    }

    lemma OthersApart(n: Node, q: Queue)
      requires Matches() && q == n.queueType && q != InMainProtected
      ensures Of(q) != protected && n !in protected.items
      ensures forall k :: 0 <= k < |protected.items| ==> protected.items[k] !in Of(q).items
    {
      Disjoint();
      OwnQueues();
      assert Of(InMainProtected) == protected;
    }

    lemma QueuesValid()
      requires Matches()
      ensures protected.Valid() && probation != protected
      ensures forall q, m :: m in Of(q).items ==> m in typed
      ensures Of(InMainProtected) == protected
    {
    }

    lemma OneTooMany(n: Node, size: nat, w: nat, p: nat)
      requires pending == 0 && n !in typed && size < TWO_64 && Balanced(size, w, p, typed) && weightedSize == Plus(size, n.weight)
      requires windowWeightedSize == if n.queueType == InWindow then Plus(w, n.weight) else w
      requires mainProtectedWeightedSize == if n.queueType == InMainProtected then Plus(p, n.weight) else p
      ensures Overcounted(n) && (Ledger() <==> n.weight == 0)
    {
      MinusOfPlus(size, n.weight);
      MinusOfPlus(w, n.weight);
      MinusOfPlus(p, n.weight);
      PlusZero(weightedSize);
      PlusMore(size, n.weight);
      PlusMore(w, n.weight);
      PlusMore(p, n.weight);
    }

    /** What update does with a node that its first half has killed. */
    method TouchDead(n: Node, d: Linked) returns (panics: bool)
      requires d == Of(n.queueType) && d.After(n)
      requires n.queueType == InMainProbation ==> protected.Valid() && n !in protected.items && protected != probation
      modifies `windowWeightedSize, `mainProtectedWeightedSize, `evicted, n`queueType
      modifies d, protected, protected.items`next, n`prev, n`next
      ensures panics <==> Stuck(old(Lists()), n, old(n.queueType), maximum, windowMaximum, mainProtectedMaximum)
      ensures evicted == if n.weight > maximum then old(evicted) + [n] else old(evicted)
      ensures !panics ==> windowWeightedSize == if n.queueType == InWindow then Plus(old(windowWeightedSize), n.weight) else old(windowWeightedSize)
      ensures !panics ==>
        mainProtectedWeightedSize == if n.queueType == InMainProtected then Plus(old(mainProtectedWeightedSize), n.weight) else old(mainProtectedWeightedSize)
      ensures !panics ==> (d.Valid() <==> n !in old(d.items) || |old(d.items)| == 1)
      ensures !panics && n in old(d.items) && |old(d.items)| > 1 ==> forall m :: !d.Represents(m)
    {
      hide Linked.Valid, Linked.Represents, Linked.Torn;
      panics := Touch(n, d);
      if !panics && d.Torn(n) {
        forall m ensures !d.Represents(m) {
          d.NothingFits(n, m);
        }
        TornNotValid(d, n);
      }
    }

    lemma TornNotValid(d: Linked, n: Node)
      requires d.Torn(n)
      ensures !d.Valid()
    {
      d.NothingFits(n, d.items);
    }

    /** The switch of update. */
    method Touch(n: Node, d: Linked) returns (panics: bool)
      requires d == Of(n.queueType) && d.After(n)
      requires n.queueType == InMainProbation ==> protected.Valid() && n !in protected.items && protected != probation
      modifies `windowWeightedSize, `mainProtectedWeightedSize, `evicted, n`queueType
      modifies d, protected, protected.items`next, n`prev, n`next
      ensures panics <==> Stuck(old(Lists()), n, old(n.queueType), maximum, windowMaximum, mainProtectedMaximum)
      ensures evicted == if n.weight > maximum then old(evicted) + [n] else old(evicted)
      ensures !panics ==> windowWeightedSize == if n.queueType == InWindow then Plus(old(windowWeightedSize), n.weight) else old(windowWeightedSize)
      ensures !panics ==>
        mainProtectedWeightedSize == if n.queueType == InMainProtected then Plus(old(mainProtectedWeightedSize), n.weight) else old(mainProtectedWeightedSize)
      ensures !panics ==> if n in old(d.items) && |old(d.items)| > 1 then d.Torn(n) else d.Valid()
    {
      hide Plus, NoDup, Linked.After, Linked.Torn, Linked.Valid, Stuck;
      if n.queueType == InWindow {
        windowWeightedSize := Plus(windowWeightedSize, n.weight);
        panics := TouchInWindow(n, d);
      } else if n.queueType == InMainProbation {
        panics := TouchInProbation(n, d);
      } else {
        mainProtectedWeightedSize := Plus(mainProtectedWeightedSize, n.weight);
        panics := TouchInProtected(n, d);
      }
    }

    method TouchInWindow(n: Node, d: Linked) returns (panics: bool)
      requires d == window && n.queueType == InWindow && d.After(n)
      modifies `evicted, d
      ensures panics <==> Stuck(old(Lists()), n, InWindow, maximum, windowMaximum, mainProtectedMaximum)
      ensures evicted == if n.weight > maximum then old(evicted) + [n] else old(evicted)
      ensures !panics ==> if n in old(d.items) && |old(d.items)| > 1 then d.Torn(n) else d.Valid()
    {
      panics := false;
      if n.weight > maximum {
        EvictDead(n, d);
      } else if n.weight <= windowMaximum {
        panics := ReorderDead(n, d);
      } else {
        var present := d.Contains(n);
        assert present ==> n == d.head;
      }
    }

    method TouchInProbation(n: Node, d: Linked) returns (panics: bool)
      requires d == probation && n.queueType == InMainProbation && d.After(n)
      requires protected.Valid() && n !in protected.items && protected != probation
      modifies `mainProtectedWeightedSize, `evicted, n`queueType
      modifies d, protected, protected.items`next, n`prev, n`next
      ensures panics <==> Stuck(old(Lists()), n, InMainProbation, maximum, windowMaximum, mainProtectedMaximum)
      ensures evicted == if n.weight > maximum then old(evicted) + [n] else old(evicted)
      ensures n.queueType == InMainProbation || n.queueType == InMainProtected
      ensures !panics ==>
        mainProtectedWeightedSize == if n.queueType == InMainProtected then Plus(old(mainProtectedWeightedSize), n.weight) else old(mainProtectedWeightedSize)
      ensures !panics ==> if n in old(d.items) && |old(d.items)| > 1 then d.Torn(n) else d.Valid()
    {
      hide Plus, NoDup, Linked.Valid;
      panics := false;
      if n.weight > maximum {
        EvictDead(n, d);
      } else {
        var present := d.Contains(n);
        if !present {
        } else if n.weight > mainProtectedMaximum {
          panics := ReorderDead(n, d);
        } else {
          mainProtectedWeightedSize := Plus(mainProtectedWeightedSize, n.weight);
          d.DeleteLoose(n);
          n.queueType := InMainProtected;
          protected.PushBack(n);
        }
      }
    }

    method TouchInProtected(n: Node, d: Linked) returns (panics: bool)
      requires d == protected && n.queueType == InMainProtected && d.After(n)
      modifies `evicted, d
      ensures panics <==> Stuck(old(Lists()), n, InMainProtected, maximum, windowMaximum, mainProtectedMaximum)
      ensures evicted == if n.weight > maximum then old(evicted) + [n] else old(evicted)
      ensures !panics ==> if n in old(d.items) && |old(d.items)| > 1 then d.Torn(n) else d.Valid()
    {
      panics := false;
      if n.weight > maximum {
        EvictDead(n, d);
      } else {
        panics := ReorderDead(n, d);
      }
    }

    /** The callback for a node that is dead already: it only leaves its queue. */
    method EvictDead(n: Node, d: Linked)
      requires d.After(n)
      modifies `evicted, d
      ensures evicted == old(evicted) + [n]
      ensures if n in old(d.items) && |old(d.items)| > 1 then d.Torn(n) else d.Valid()
    {
      d.DeleteLoose(n);
      evicted := evicted + [n];
    }

    /** Reordering a node without links: unless it is alone, the list has no tail left for it to follow. */
    method ReorderDead(n: Node, d: Linked) returns (panics: bool)
      requires d.After(n)
      modifies d
      ensures panics <==> n in old(d.items) && |old(d.items)| > 1 && old(d.items)[0] == n
      ensures !panics ==> if n in old(d.items) && |old(d.items)| > 1 then d.Torn(n) else d.Valid()
    {
      panics := false;
      var present := d.Contains(n);
      if present && n != d.tail {
        d.DeleteLoose(n);
        assert d.len > 0 && d.tail == null;
        panics := true;
      }
    }

    /** The task of an entry replaced by another. The weight of n is added to the grand total last, after n may have been evicted again; the unsigned counters make up for it. */
    method Supersede(n: Node, o: Node)
      requires Valid() && pending == 0 && n !in typed && n.state != Dead && Loose(n) && n != o
      requires o in typed || (o.state == Dead && !OnQueue(o) && Loose(o))
      modifies `weightedSize, `windowWeightedSize, `mainProtectedWeightedSize, `typed, `evicted, `pending
      modifies n`state, n`queueType, n`prev, n`next, o`state
      modifies window, probation, protected, typed.Keys`prev, typed.Keys`next
      ensures Valid() && pending == 0 && o.state == Dead
      ensures n.weight > maximum ==> typed == old(typed) - {o} && evicted == old(evicted) + [n] && n.state == Dead
      ensures n.weight <= maximum ==>
        && typed.Keys == old(typed.Keys) - {o} + {n} && evicted == old(evicted) && n.state == old(n.state)
        && (OnQueue(n) <==> old(OnQueue(o)))
      ensures Lists() == Settled(Substituted(old(Lists()), n, o, o.queueType), n, o.queueType, maximum, windowMaximum, mainProtectedMaximum)
    {
      hide Matches, Valid, Limits, Remove, Replace, Balanced, Plus, Settled, Loose, OnQueue;
      UpdateNode(n, o);
      assert typed - {n} == old(typed) - {o};
      Enroll(n);
      Settle(n);
      Complete(n);
    }

    /** The weight of n enters the total of its queue. */
    method Enroll(n: Node)
      requires Matches() && Limits() && n in typed && weightedSize < TWO_64
      requires Balanced(weightedSize, windowWeightedSize, mainProtectedWeightedSize, typed - {n})
      modifies `windowWeightedSize, `mainProtectedWeightedSize, `pending
      ensures Valid() && pending == n.weight
    {
      hide Matches, Balanced, Plus, Limits;
      assert n.queueType == typed[n] by { MatchesAt(n); }
      assert (typed - {n})[n := typed[n]] == typed;
      BalancedAdd(weightedSize, windowWeightedSize, mainProtectedWeightedSize, typed - {n}, n, typed[n]);
      if n.queueType == InWindow {
        windowWeightedSize := Plus(windowWeightedSize, n.weight);
      } else if n.queueType == InMainProtected {
        mainProtectedWeightedSize := Plus(mainProtectedWeightedSize, n.weight);
      }
      pending := n.weight;
    }

    /** The weight of n enters the grand total. */
    method Complete(n: Node)
      requires Valid() && pending == n.weight
      modifies `weightedSize, `pending
      ensures Valid() && pending == 0
    {
      hide Balanced, Matches, Limits;
      PlusZero(Plus(weightedSize, n.weight));
      weightedSize := Plus(weightedSize, n.weight);
      pending := 0;
    }

    /** Evicts an updated entry that is too heavy for the cache, moves one that is too heavy for the window to its front, and counts any other as read. */
    method Settle(n: Node)
      requires Valid() && n in typed
      modifies `weightedSize, `windowWeightedSize, `mainProtectedWeightedSize, `typed, `evicted, n`state, n`queueType
      modifies window, probation, protected, typed.Keys`prev, typed.Keys`next
      ensures Valid()
      ensures n.weight > maximum ==> typed == old(typed) - {n} && evicted == old(evicted) + [n] && n.state == Dead
      ensures n.weight <= maximum ==>
        && typed.Keys == old(typed.Keys) && evicted == old(evicted) && n.state == old(n.state) && weightedSize == old(weightedSize)
        && (OnQueue(n) <==> old(OnQueue(n)))
      ensures Lists() == Settled(old(Lists()), n, old(typed)[n], maximum, windowMaximum, mainProtectedMaximum)
    {
      hide Matches, Ledger, Limits, Remove, Accessed, OnQueue, TypedAfter;
      assert n.queueType == typed[n] by {
        MatchesAt(n);
      }
      if n.queueType == InWindow {
        if n.weight > maximum {
          EvictNode(n);
        } else if n.weight <= windowMaximum {
          Read(n);
        } else {
          ToFrontIfPresent(n);
        }
      } else if n.weight <= maximum {
        Read(n);
      } else {
        EvictNode(n);
      }
    }

    /** Access, for an accounted node. */
    method Read(n: Node)
      requires Valid() && n in typed
      modifies `mainProtectedWeightedSize, `typed, n`queueType
      modifies window, probation, protected, typed.Keys`prev, typed.Keys`next
      ensures Valid() && typed.Keys == old(typed.Keys)
      ensures Lists() == Accessed(old(Lists()), n, old(n.queueType), n.weight, mainProtectedMaximum)
      ensures OnQueue(n) <==> old(OnQueue(n))
    {
      hide Matches, Ledger, Limits, Accessed;
      assert n.queueType == typed[n] && (OnQueue(n) <==> n in Lists().Get(typed[n])) by { MatchesAt(n); }
      AccessedKeeps(Lists(), n, typed[n], n.weight, mainProtectedMaximum);
      Access(n);
      assert n.queueType == typed[n] && (OnQueue(n) <==> n in Lists().Get(typed[n])) by { MatchesAt(n); }
    }

    method ToFrontIfPresent(n: Node)
      requires Matches() && n in typed && n.queueType == InWindow
      modifies window, probation, protected, typed.Keys`prev, typed.Keys`next
      ensures Matches()
      ensures Lists() == old(Lists()).(window := if n in old(Lists()).window then [n] + Remove(old(Lists()).window, n) else old(Lists()).window)
      ensures OnQueue(n) <==> old(OnQueue(n))
    {
      hide Queues, Placed, Typing, Linked.Valid, Remove;
      assert window.Valid() && window.Fits(n) && window.items == Lists().window by {
        MatchesAt(n);
      }
      var present := window.Contains(n);
      if present {
        Move(n, true);
      }
    }

    /** With no more entries than 32 bits count the totals are the sums themselves, without wrap-around. */
    lemma TotalsExact()
      requires Valid() && pending == 0 && |typed.Keys| <= 0x1_0000_0000
      ensures weightedSize == Weigh(typed.Keys)
      ensures windowWeightedSize == Weigh(OfType(typed, InWindow))
      ensures mainProtectedWeightedSize == Weigh(OfType(typed, InMainProtected))
    {
      hide Matches, Limits, Weigh;
      PlusZero(weightedSize);
      WeighBelow(typed.Keys, typed.Keys);
      WeighBelow(OfType(typed, InWindow), typed.Keys);
      WeighBelow(OfType(typed, InMainProtected), typed.Keys);
    }

    // ---------- Eviction ----------

    /** What a cursor standing on position p of a queue sees. */
    lemma CursorAt(q: Queue, p: nat)
      requires Matches() && p < |Lists().Get(q)|
      ensures var n := Lists().Get(q)[p];
        n.next == At(Lists().Get(q), p + 1) && n in typed && typed[n] == q && n.queueType == q && OnQueue(n) && n.state != Dead
      ensures NoDup(Lists().Get(q))
    {
      var l := Lists().Get(q);
      assert Of(q).Valid() && Of(q).items == l;
      assert Joined(l, p);
      assert l[p] in l;
      OwnQueues();
    }

    lemma HeadIs(q: Queue)
      requires Matches()
      ensures Of(q).head == At(Lists().Get(q), 0) && NoDup(Lists().Get(q))
    {
      assert Of(q).Valid() && Of(q).items == Lists().Get(q);
    }

    /** A linked node of the window moves to the back of probation, and its weight leaves the window's total. */
    method Expel(n: Node)
      requires Valid() && n in typed && OnQueue(n) && typed[n] == InWindow
      modifies `windowWeightedSize, `typed, n`queueType
      modifies window, probation, protected, typed.Keys`prev, typed.Keys`next
      ensures Valid() && typed == old(typed)[n := InMainProbation] && windowWeightedSize == Minus(old(windowWeightedSize), n.weight)
      ensures Lists() == old(Lists()).(window := Remove(old(Lists()).window, n), probation := old(Lists()).probation + [n])
    {
      hide Matches, Limits, Remove, Balanced, Plus, Minus;
      assert Balanced(Plus(weightedSize, pending), Minus(windowWeightedSize, n.weight), mainProtectedWeightedSize, typed[n := InMainProbation]) by {
        BalancedRetype(Plus(weightedSize, pending), windowWeightedSize, mainProtectedWeightedSize, typed, n, InMainProbation);
      }
      Transfer(n, InMainProbation);
      windowWeightedSize := Minus(windowWeightedSize, n.weight);
    }

    /** Moves entries from the window to probation, oldest first and none of zero weight, while the window is too heavy. */
    method EvictFromWindow() returns (first: Node?, ghost k: nat)
      requires Valid()
      modifies `windowWeightedSize, `typed, typed.Keys`queueType
      modifies window, probation, protected, typed.Keys`prev, typed.Keys`next
      ensures Valid() && typed.Keys == old(typed.Keys)
      ensures k <= |old(Lists()).window|
      ensures Lists() == Expelled(old(Lists()), k)
      ensures |old(Lists()).probation| <= |Lists().probation| && first == At(Lists().probation, |old(Lists()).probation|)
      ensures windowWeightedSize <= windowMaximum || k == |old(Lists()).window|
      ensures k > 0 ==> Plus(windowWeightedSize, old(Lists()).window[k - 1].weight) > windowMaximum
    {
      hide Valid, Limits, Remove, Minus, Plus, NoDup, Expelled, Zeros;
      first := null;
      ghost var c0 := Lists();
      assert window.head == At(c0.window, 0) && NoDup(c0.window) by {
        HeadOf(InWindow);
      }
      var n := window.head;
      k := 0;
      ExpelledNone(c0);
      while windowWeightedSize > windowMaximum
        invariant Valid() && typed.Keys == old(typed.Keys)
        invariant k <= |c0.window| && n == At(c0.window, k)
        invariant Lists() == Expelled(c0, k)
        invariant |c0.probation| <= |Lists().probation| && first == At(Lists().probation, |c0.probation|)
        invariant k > 0 ==> Plus(windowWeightedSize, c0.window[k - 1].weight) > windowMaximum
        decreases |c0.window| - k
      {
        if n == null {
          break;
        }
        ghost var z := |Zeros(c0.window[..k])|;
        assert z < |Lists().window| && Lists().window[z] == n && At(Lists().window, z + 1) == At(c0.window, k + 1) by {
          ExpelledAt(c0, k);
        }
        assert n.next == At(c0.window, k + 1) && n in typed && typed[n] == InWindow && OnQueue(n) by {
          CursorOf(InWindow, z);
        }
        var next := n.next;
        ExpelledNext(c0, k);
        assert Plus(windowWeightedSize, 0) == windowWeightedSize == Plus(Minus(windowWeightedSize, n.weight), n.weight) by {
          SizeBound();
          PlusZero(windowWeightedSize);
          MinusPlus(windowWeightedSize, n.weight);
        }
        if n.weight != 0 {
          if first == null {
            first := n;
          }
          Expel(n);
        }
        n := next;
        k := k + 1;
      }
    }

    lemma CursorOf(q: Queue, p: nat)
      requires Valid() && p < |Lists().Get(q)|
      ensures var n := Lists().Get(q)[p];
        n.next == At(Lists().Get(q), p + 1) && n in typed && typed[n] == q && n.queueType == q && OnQueue(n) && n.state != Dead
      ensures NoDup(Lists().Get(q))
    {
      CursorAt(q, p);
    }

    lemma ListsApart()
      requires Valid()
      ensures forall q :: NoDup(Lists().Get(q))
      ensures forall q, r, n :: q != r && n in Lists().Get(q) ==> n !in Lists().Get(r)
      ensures ListsDiffer(Lists())
    {
      Disjoint();
      forall q ensures Lists().Get(q) == Of(q).items {
      }
    }

    lemma HeadOf(q: Queue)
      requires Valid()
      ensures Of(q).head == At(Lists().Get(q), 0) && NoDup(Lists().Get(q))
    {
      HeadIs(q);
    }

    lemma SizeBound()
      requires Valid()
      ensures weightedSize < TWO_64 && windowWeightedSize < TWO_64 && mainProtectedWeightedSize < TWO_64
    {
    }

    /** The accounted nodes that are alive. */
    ghost function Living(): set<Node>
      reads `typed, typed.Keys`state
    {
      set n | n in typed && n.state == Alive
    }

    /** What the evictions since the round began have come to. */
    ghost predicate Going(r: Round)
      reads this, window`items, probation`items, protected`items, typed.Keys`state
    {
      && Gone(r.typed, typed, r.evicted, evicted)
      && Needed(r.evicted, evicted, weightedSize, maximum)
      && Remains(r.lists, Lists(), r.evicted, evicted)
      && (forall n :: n in typed ==> (n.state == Alive <==> n in r.alive))
      && maximum == r.maximum
    }

    /** The evictions to come are the rest of the plan. */
    ghost predicate Planned(r: Round, vq: Queue, vi: nat, cq: Queue, ci: nat)
      reads this, window`items, probation`items, protected`items
    {
      && r.evicted <= evicted
      && evicted[|r.evicted|..] + Plan(View(Lists(), vq, vi, cq, ci), r.alive, r.maximum, r.judge, weightedSize, |evicted| - |r.evicted|) == r.plan
    }

    lemma GoingStarts(r: Round)
      requires Valid() && r.typed == typed && r.evicted == evicted && r.lists == Lists() && r.alive == Living() && r.maximum == maximum
      ensures Going(r)
    {
      GoneNone(typed, evicted);
      NeededNone(evicted, weightedSize, maximum);
      RemainsNone(Lists(), evicted);
    }

    lemma PlannedStarts(r: Round, start: nat)
      requires r.evicted == evicted && r.maximum == maximum
      requires r.plan == Plan(Choices(Lists(), start), r.alive, maximum, r.judge, weightedSize, 0)
      ensures Planned(r, InMainProbation, 0, InMainProbation, start)
    {
      hide Plan, View;
      assert evicted[|r.evicted|..] == [];
    }

    lemma PlannedSame(r: Round, vq: Queue, vi: nat, cq: Queue, ci: nat, vq': Queue, vi': nat, cq': Queue, ci': nat)
      requires Planned(r, vq, vi, cq, ci) && View(Lists(), vq, vi, cq, ci) == View(Lists(), vq', vi', cq', ci')
      ensures Planned(r, vq', vi', cq', ci')
    {
    }

    /** Evicts the node at position p of a queue, which is done only while the cache is too heavy. */
    method EvictAt(n: Node, ghost q: Queue, ghost p: nat, ghost r: Round)
      requires Valid() && p < |Lists().Get(q)| && Lists().Get(q)[p] == n && n.weight > 0 && weightedSize > maximum && Going(r)
      modifies `weightedSize, `windowWeightedSize, `mainProtectedWeightedSize, `typed, `evicted, n`state
      modifies window, probation, protected, typed.Keys`prev, typed.Keys`next
      ensures Valid() && typed == old(typed) - {n} && n.state == Dead && evicted == old(evicted) + [n]
      ensures Lists() == old(Lists()).Set(q, Without(old(Lists()).Get(q), p))
      ensures weightedSize == Minus(old(weightedSize), n.weight) && Going(r)
    {
      hide Valid, Remove, NoDup, Without, Loose, Minus, Remains, Gone, Needed;
      assert Remains(r.lists, Lists().Set(q, Without(Lists().Get(q), p)), r.evicted, evicted + [n]) by {
        ListsApart();
        RemainsNext(r.lists, Lists(), r.evicted, evicted, q, p);
      }
      assert n.queueType == q && n in typed && Remove(Lists().Get(q), n) == Without(Lists().Get(q), p) by {
        CursorOf(q, p);
        RemoveAt(Lists().Get(q), p);
      }
      assert Gone(r.typed, typed - {n}, r.evicted, evicted + [n]) by { GoneNext(r.typed, typed, r.evicted, evicted, n); }
      assert Needed(r.evicted, evicted + [n], Minus(weightedSize, n.weight), maximum) by {
        SizeBound();
        NeededNext(r.evicted, evicted, weightedSize, maximum, n);
      }
      EvictNode(n);
    }

    /** The frequencies decide; a warm candidate is let in at random now and then, against attacks. */
    method Admit(candidate: Node, victim: Node, judge: Judge, turn: nat) returns (b: bool)
      ensures b <==> Admits(judge, candidate, victim, turn)
    {
      var victimFreq, candidateFreq := judge.frequency(victim), judge.frequency(candidate);
      if candidateFreq > victimFreq {
        return true;
      }
      if candidateFreq >= ADMIT_HASHDOS_THRESHOLD {
        return judge.coins(turn);
      }
      return false;
    }

    /** Evicts the node under the victim cursor and moves the cursor on; a candidate that was admitted is passed. */
    method EvictVictim(victim: Node, ghost vq: Queue, ghost vi: nat, ghost cq: Queue, ghost candidate: Node?, ghost ci: nat, ghost r: Round)
      returns (next: Node?, ghost ci': nat)
      requires Valid() && Cursors(Lists(), vq, victim, vi, cq, candidate, ci) && Going(r) && Planned(r, vq, vi, cq, ci)
      requires victim.weight > 0 && victim != candidate && weightedSize > maximum && Staged(Lists(), vq, cq, ci)
      requires VictimGoes(r, victim, candidate, |evicted| - |r.evicted|) && (if candidate == null then cq == InWindow else candidate.weight > 0)
      modifies `weightedSize, `windowWeightedSize, `mainProtectedWeightedSize, `typed, `evicted, victim`state
      modifies window, probation, protected, typed.Keys`prev, typed.Keys`next
      ensures Valid() && Cursors(Lists(), vq, next, vi, cq, candidate, ci') && Going(r) && Staged(Lists(), vq, cq, ci')
      ensures Planned(r, vq, vi, cq, if Passes(r, victim, candidate) then ci' + 1 else ci')
      ensures Size(Lists()) < old(Size(Lists())) && typed.Keys <= old(typed.Keys) && |evicted| == |old(evicted)| + 1
    {
      hide Valid, Cursors, Going, Planned, NoDup, Without, Size, Minus, View, Plan, Staged, VictimGoes, Passes;
      ghost var c := Lists();
      assert vi < |c.Get(vq)| && c.Get(vq)[vi] == victim && (cq == vq ==> ci != vi) by {
        CursorsSee(c, vq, victim, vi, cq, candidate, ci);
      }
      assert victim.next == At(c.Get(vq), vi + 1) && victim in typed by { CursorOf(vq, vi); }
      next := victim.next;
      ci' := if cq == vq && ci > vi then ci - 1 else ci;
      ghost var c', ahead := c.Set(vq, Without(c.Get(vq), vi)), if Passes(r, victim, candidate) then ci' + 1 else ci';
      assert Cursors(c', vq, next, vi, cq, candidate, ci') by { VictimEvicted(c, vq, victim, vi, cq, candidate, ci); }
      assert Staged(c', vq, cq, ci') by { StagedVictim(c, vq, vi, cq, ci); }
      assert Size(c') < Size(c) by { SizeWithout(c, vq, vi); }
      assert Foreseen(r, victim, View(c', vq, vi, cq, ahead)) by {
        ListsApart();
        PlanNow(r, vq, vi, cq, ci);
        VictimTurn(c, vq, victim, vi, cq, candidate, ci, r, |evicted| - |r.evicted|);
        PlanNext(r, vq, vi, cq, ci, victim, View(c', vq, vi, cq, ahead));
      }
      ghost var before, size := evicted, weightedSize;
      EvictAt(victim, vq, vi, r);
      assert Planned(r, vq, vi, cq, ahead) by { PlanKept(r, before, size, victim, vq, vi, cq, ahead); }
    }

    /** Evicts the node under the candidate cursor and moves the cursor on. */
    method EvictCandidate(candidate: Node, ghost vq: Queue, ghost victim: Node?, ghost vi: nat, ghost cq: Queue, ghost ci: nat, ghost r: Round)
      returns (next: Node?)
      requires Valid() && Cursors(Lists(), vq, victim, vi, cq, candidate, ci) && Going(r) && Planned(r, vq, vi, cq, ci)
      requires candidate.weight > 0 && candidate != victim && weightedSize > maximum && Staged(Lists(), vq, cq, ci)
      requires victim != null ==> victim.weight > 0 && !VictimGoes(r, victim, candidate, |evicted| - |r.evicted|)
      modifies `weightedSize, `windowWeightedSize, `mainProtectedWeightedSize, `typed, `evicted, candidate`state
      modifies window, probation, protected, typed.Keys`prev, typed.Keys`next
      ensures Valid() && Cursors(Lists(), vq, victim, vi, cq, next, ci) && Going(r) && Planned(r, vq, vi, cq, ci) && Staged(Lists(), vq, cq, ci)
      ensures Size(Lists()) < old(Size(Lists())) && typed.Keys <= old(typed.Keys) && |evicted| == |old(evicted)| + 1
    {
      hide Valid, Cursors, Going, Planned, NoDup, Without, Size, Minus, View, Plan, Staged, VictimGoes;
      ghost var c := Lists();
      assert ci < |c.Get(cq)| && c.Get(cq)[ci] == candidate && (cq == vq ==> ci != vi) by {
        CursorsSee(c, vq, victim, vi, cq, candidate, ci);
      }
      assert candidate.next == At(c.Get(cq), ci + 1) && candidate in typed by { CursorOf(cq, ci); }
      next := candidate.next;
      ghost var c' := c.Set(cq, Without(c.Get(cq), ci));
      assert Cursors(c', vq, victim, vi, cq, next, ci) by { CandidateEvicted(c, vq, victim, vi, cq, candidate, ci); }
      assert Staged(c', vq, cq, ci) by { StagedCandidate(c, vq, cq, ci); }
      assert Size(c') < Size(c) by { SizeWithout(c, cq, ci); }
      assert Foreseen(r, candidate, View(c', vq, vi, cq, ci)) by {
        ListsApart();
        PlanNow(r, vq, vi, cq, ci);
        CandidateTurn(c, vq, victim, vi, cq, candidate, ci, r, |evicted| - |r.evicted|);
        PlanNext(r, vq, vi, cq, ci, candidate, View(c', vq, vi, cq, ci));
      }
      ghost var before, size := evicted, weightedSize;
      EvictAt(candidate, cq, ci, r);
      assert Planned(r, vq, vi, cq, ci) by { PlanKept(r, before, size, candidate, vq, vi, cq, ci); }
    }

    /** Both cursors are on the same node: it is evicted, the victim cursor moves on and the candidate is dropped. */
    method EvictShared(n: Node, ghost vq: Queue, ghost vi: nat, ghost cq: Queue, ghost ci: nat, ghost r: Round)
      returns (next: Node?, ghost ci': nat)
      requires Valid() && Cursors(Lists(), vq, n, vi, cq, n, ci) && Going(r) && Planned(r, vq, vi, cq, ci)
      requires n.weight > 0 && weightedSize > maximum && Staged(Lists(), vq, cq, ci)
      modifies `weightedSize, `windowWeightedSize, `mainProtectedWeightedSize, `typed, `evicted, n`state
      modifies window, probation, protected, typed.Keys`prev, typed.Keys`next
      ensures Valid() && Cursors(Lists(), vq, next, vi, cq, null, ci') && Going(r) && Planned(r, vq, vi, cq, ci') && Staged(Lists(), vq, cq, ci')
      ensures Size(Lists()) < old(Size(Lists())) && typed.Keys <= old(typed.Keys) && |evicted| == |old(evicted)| + 1
    {
      hide Valid, Cursors, Going, Planned, NoDup, Without, Size, Minus, View, Plan, Staged;
      ghost var c := Lists();
      assert vi < |c.Get(vq)| && c.Get(vq)[vi] == n && ci < |c.Get(cq)| && c.Get(cq)[ci] == n by {
        CursorsSee(c, vq, n, vi, cq, n, ci);
      }
      assert n.next == At(c.Get(vq), vi + 1) && n in typed && n.queueType == vq by { CursorOf(vq, vi); }
      assert cq == vq && ci == vi by {
        CursorOf(cq, ci);
        SameSpot(c.Get(cq), ci, vi);
      }
      assert vq == InMainProbation by { StagedShared(c, vq, ci); }
      next := n.next;
      ci' := |Without(c.Get(vq), vi)|;
      ghost var c' := c.Set(vq, Without(c.Get(vq), vi));
      assert Cursors(c', vq, next, vi, vq, null, ci') by { BothEvicted(c, vq, n, vi); }
      assert Staged(c', vq, vq, ci') by { StagedInProbation(c', ci'); }
      assert Size(c') < Size(c) by { SizeWithout(c, vq, vi); }
      assert Foreseen(r, n, View(c', vq, vi, vq, ci')) by {
        ListsApart();
        PlanNow(r, vq, vi, cq, ci);
        SharedTurn(c, n, vi, r, |evicted| - |r.evicted|);
        PlanNext(r, vq, vi, cq, ci, n, View(c', vq, vi, vq, ci'));
      }
      ghost var before, size := evicted, weightedSize;
      EvictAt(n, vq, vi, r);
      assert Planned(r, vq, vi, vq, ci') by { PlanKept(r, before, size, n, vq, vi, vq, ci'); }
    }

    /** One eviction, of the node under the victim cursor or of that under the candidate cursor; neither is weightless. */
    method EvictOne(victim: Node?, ghost vq: Queue, ghost vi: nat, candidate: Node?, ghost cq: Queue, ghost ci: nat, judge: Judge, turn: nat, ghost r: Round)
      returns (victim': Node?, candidate': Node?, ghost ci': nat)
      requires Valid() && Cursors(Lists(), vq, victim, vi, cq, candidate, ci) && Staged(Lists(), vq, cq, ci) && cq != InMainProtected
      requires Going(r) && Planned(r, vq, vi, cq, ci) && weightedSize > maximum && turn == |evicted| - |r.evicted| && judge == r.judge
      requires victim != null || candidate != null
      requires victim != null ==> victim.weight > 0 && victim in typed
      requires if candidate == null then cq == InWindow else candidate.weight > 0 && candidate in typed
      modifies `weightedSize, `windowWeightedSize, `mainProtectedWeightedSize, `typed, `evicted, typed.Keys`state
      modifies window, probation, protected, typed.Keys`prev, typed.Keys`next
      ensures Valid() && Cursors(Lists(), vq, victim', vi, cq, candidate', ci') && Staged(Lists(), vq, cq, ci')
      ensures Going(r) && Planned(r, vq, vi, cq, ci')
      ensures Size(Lists()) < old(Size(Lists())) && typed.Keys <= old(typed.Keys) && |evicted| == |old(evicted)| + 1
    {
      hide Valid, Cursors, NoDup, Without, Contents.Get, Contents.Set, Size, Going, Planned, Staged, VictimGoes, Passes, Plan, View, Living, Admits;
      victim', candidate', ci' := victim, candidate, ci;
      if victim == null {
        candidate' := EvictCandidate(candidate, vq, victim, vi, cq, ci, r);
      } else if candidate == null {
        assert VictimGoes(r, victim, candidate, turn) && !Passes(r, victim, candidate) by { Unopposed(r, victim, turn); }
        victim', ci' := EvictVictim(victim, vq, vi, cq, candidate, ci, r);
      } else if candidate == victim {
        victim', ci' := EvictShared(candidate, vq, vi, cq, ci, r);
        candidate' := null;
      } else {
        assert (victim.state == Alive <==> victim in r.alive) && (candidate.state == Alive <==> candidate in r.alive) && r.maximum == maximum by {
          AliveNow(r, victim);
          AliveNow(r, candidate);
        }
        if victim.state != Alive {
          assert VictimGoes(r, victim, candidate, turn) && !Passes(r, victim, candidate) by { Decided(r, victim, candidate, turn); }
          victim', ci' := EvictVictim(victim, vq, vi, cq, candidate, ci, r);
        } else if candidate.state != Alive {
          assert !VictimGoes(r, victim, candidate, turn) by { Decided(r, victim, candidate, turn); }
          candidate' := EvictCandidate(candidate, vq, victim, vi, cq, ci, r);
        } else if candidate.weight > maximum {
          assert !VictimGoes(r, victim, candidate, turn) by { Decided(r, victim, candidate, turn); }
          candidate' := EvictCandidate(candidate, vq, victim, vi, cq, ci, r);
        } else {
          var admitted := Admit(candidate, victim, judge, turn);
          assert (VictimGoes(r, victim, candidate, turn) <==> admitted) && Passes(r, victim, candidate) by { Decided(r, victim, candidate, turn); }
          if admitted {
            victim', ci' := EvictVictim(victim, vq, vi, cq, candidate, ci, r);
            assert Cursors(Lists(), vq, victim', vi, cq, candidate.next, ci' + 1) by {
              CandidateNext(vq, victim', vi, cq, candidate, ci');
            }
            assert Staged(Lists(), vq, cq, ci' + 1) by { StagedNext(Lists(), vq, victim', vi, cq, candidate, ci'); }
            candidate', ci' := candidate.next, ci' + 1;
          } else {
            candidate' := EvictCandidate(candidate, vq, victim, vi, cq, ci, r);
          }
        }
      }
    }

    /** The next to go is n, and the plan goes on from the scene. */
    ghost predicate Foreseen(r: Round, n: Node, scene: Scene)
      reads `evicted, `weightedSize
    {
      && r.evicted <= evicted
      && evicted[|r.evicted|..] + ([n] + Plan(scene, r.alive, r.maximum, r.judge, Minus(weightedSize, n.weight), |evicted| - |r.evicted| + 1)) == r.plan
    }

    lemma PlanNow(r: Round, vq: Queue, vi: nat, cq: Queue, ci: nat)
      requires Going(r) && Planned(r, vq, vi, cq, ci)
      ensures r.evicted <= evicted && maximum == r.maximum
      ensures evicted[|r.evicted|..] + Plan(View(Lists(), vq, vi, cq, ci), r.alive, r.maximum, r.judge, weightedSize, |evicted| - |r.evicted|) == r.plan
    {
    }

    lemma PlanNext(r: Round, vq: Queue, vi: nat, cq: Queue, ci: nat, n: Node, scene: Scene)
      requires Planned(r, vq, vi, cq, ci) && weightedSize > r.maximum && r.evicted <= evicted
      requires Pick(View(Lists(), vq, vi, cq, ci), r.alive, r.maximum, r.judge, |evicted| - |r.evicted|) == Some(Turn(n, scene))
      ensures Foreseen(r, n, scene)
    {
      hide Pick, View;
    }

    /** Once n has gone as foreseen, the plan goes on. */
    lemma PlanKept(r: Round, before: seq<Node>, size: nat, n: Node, vq: Queue, vi: nat, cq: Queue, ci: nat)
      requires evicted == before + [n] && weightedSize == Minus(size, n.weight) && r.evicted <= before
      requires before[|r.evicted|..] + ([n] + Plan(View(Lists(), vq, vi, cq, ci), r.alive, r.maximum, r.judge, weightedSize, |before| - |r.evicted| + 1)) == r.plan
      ensures Planned(r, vq, vi, cq, ci)
    {
      hide Plan, View, Minus;
      PlanShifts(before, |r.evicted|, n, Plan(View(Lists(), vq, vi, cq, ci), r.alive, r.maximum, r.judge, weightedSize, |before| - |r.evicted| + 1));
    }

    lemma UnderCursors(vq: Queue, victim: Node?, vi: nat, cq: Queue, candidate: Node?, ci: nat)
      requires Valid() && Cursors(Lists(), vq, victim, vi, cq, candidate, ci)
      ensures victim != null ==> victim in typed && vi < |Lists().Get(vq)| && Lists().Get(vq)[vi] == victim
      ensures candidate != null ==> candidate in typed && ci < |Lists().Get(cq)| && Lists().Get(cq)[ci] == candidate
    {
      if victim != null {
        CursorOf(vq, vi);
      }
      if candidate != null {
        CursorOf(cq, ci);
      }
    }

    lemma VictimNext(vq: Queue, victim: Node, vi: nat, cq: Queue, candidate: Node?, ci: nat)
      requires Valid() && Cursors(Lists(), vq, victim, vi, cq, candidate, ci) && victim.weight == 0
      ensures Cursors(Lists(), vq, victim.next, vi + 1, cq, candidate, ci)
    {
      CursorOf(vq, vi);
    }

    lemma CandidateNext(vq: Queue, victim: Node?, vi: nat, cq: Queue, candidate: Node, ci: nat)
      requires Valid() && Cursors(Lists(), vq, victim, vi, cq, candidate, ci)
      ensures Cursors(Lists(), vq, victim, vi, cq, candidate.next, ci + 1)
    {
      CursorOf(cq, ci);
    }

    lemma WindowEntered(r: Round, vq: Queue, victim: Node?, vi: nat, ci: nat)
      requires Valid() && Cursors(Lists(), vq, victim, vi, InMainProbation, null, ci)
      requires Planned(r, vq, vi, InMainProbation, ci) && Staged(Lists(), vq, InMainProbation, ci)
      ensures Cursors(Lists(), vq, victim, vi, InWindow, window.head, 0) && Planned(r, vq, vi, InWindow, 0) && Staged(Lists(), vq, InWindow, 0)
    {
      hide Valid, Planned, View, Staged, Cursors;
      HeadOf(InWindow);
      CandidateEnters(Lists(), vq, victim, vi, InMainProbation, null, ci);
      WindowInView(Lists(), vq, victim, vi, ci);
      PlannedSame(r, vq, vi, InMainProbation, ci, vq, vi, InWindow, 0);
    }

    lemma QueueEntered(r: Round, vq: Queue, vi: nat, cq: Queue, ci: nat)
      requires Valid() && Cursors(Lists(), vq, null, vi, cq, null, ci) && Planned(r, vq, vi, cq, ci) && Staged(Lists(), vq, cq, ci)
      requires vq != InWindow && cq == InWindow
      ensures var next := if vq == InMainProbation then InMainProtected else InWindow;
        Cursors(Lists(), next, Of(next).head, 0, cq, null, ci) && Planned(r, next, 0, cq, ci) && Staged(Lists(), next, cq, ci)
    {
      hide Valid, Planned, View, Staged, Cursors;
      var next := if vq == InMainProbation then InMainProtected else InWindow;
      HeadOf(next);
      VictimEnters(Lists(), vq, null, vi, cq, null, ci);
      NextQueueInView(Lists(), vq, vi, cq, ci);
      PlannedSame(r, vq, vi, cq, ci, next, 0, cq, ci);
    }

    lemma VictimSkipped(r: Round, vq: Queue, victim: Node, vi: nat, cq: Queue, candidate: Node?, ci: nat)
      requires Valid() && Cursors(Lists(), vq, victim, vi, cq, candidate, ci) && Planned(r, vq, vi, cq, ci) && victim.weight == 0
      ensures Cursors(Lists(), vq, victim.next, vi + 1, cq, candidate, ci) && Planned(r, vq, vi + 1, cq, ci)
    {
      hide Valid, Planned, View, Cursors;
      UnderCursors(vq, victim, vi, cq, candidate, ci);
      VictimNext(vq, victim, vi, cq, candidate, ci);
      VictimOutOfView(Lists(), vq, vi, cq, ci);
      PlannedSame(r, vq, vi, cq, ci, vq, vi + 1, cq, ci);
    }

    lemma CandidateSkipped(r: Round, vq: Queue, victim: Node?, vi: nat, cq: Queue, candidate: Node, ci: nat)
      requires Valid() && Cursors(Lists(), vq, victim, vi, cq, candidate, ci) && Planned(r, vq, vi, cq, ci) && candidate.weight == 0
      requires Staged(Lists(), vq, cq, ci) && cq != InMainProtected
      ensures Cursors(Lists(), vq, victim, vi, cq, candidate.next, ci + 1) && Planned(r, vq, vi, cq, ci + 1) && Staged(Lists(), vq, cq, ci + 1)
    {
      hide Valid, Planned, View, Cursors, Staged;
      UnderCursors(vq, victim, vi, cq, candidate, ci);
      CandidateNext(vq, victim, vi, cq, candidate, ci);
      CandidateOutOfView(Lists(), vq, vi, cq, ci);
      PlannedSame(r, vq, vi, cq, ci, vq, vi, cq, ci + 1);
    }

    /**
      Evicts until the cache is no longer too heavy, or until nothing that weighs anything is
      linked. A victim cursor passes through probation, protected and window, a candidate
      cursor through probation and window.
    */
    method EvictFromMain(first: Node?, judge: Judge, ghost start: nat)
      requires Valid() && start <= |Lists().probation| && first == At(Lists().probation, start)
      modifies `weightedSize, `windowWeightedSize, `mainProtectedWeightedSize, `typed, `evicted, typed.Keys`state
      modifies window, probation, protected, typed.Keys`prev, typed.Keys`next
      ensures Valid()
      ensures weightedSize <= maximum || forall q, k :: 0 <= k < |Lists().Get(q)| ==> Lists().Get(q)[k].weight == 0
      ensures Gone(old(typed), typed, old(evicted), evicted)
      ensures Needed(old(evicted), evicted, weightedSize, maximum)
      ensures Remains(old(Lists()), Lists(), old(evicted), evicted)
      ensures evicted == old(evicted) + Plan(Choices(old(Lists()), start), old(Living()), maximum, judge, old(weightedSize), 0)
    {
      hide Valid, Cursors, NoDup, Without, Contents.Get, Contents.Set, Size, Going, Planned, Staged, VictimGoes, Passes, Plan, View, Living, Admits, Choices;
      ghost var r := Round(typed, evicted, Lists(), Living(), maximum, judge, Plan(Choices(Lists(), start), Living(), maximum, judge, weightedSize, 0));
      var candidate := first;
      var victimQueue, candidateQueue := InMainProbation, InMainProbation;
      assert probation.head == At(Lists().Get(InMainProbation), 0) by { HeadOf(InMainProbation); }
      var victim := probation.head;
      ghost var vi: nat, ci: nat := 0, start;
      assert Cursors(Lists(), victimQueue, victim, vi, candidateQueue, candidate, ci) by { CursorsStart(Lists(), start); }
      assert Going(r) by { GoingStarts(r); }
      assert Planned(r, victimQueue, vi, candidateQueue, ci) && Staged(Lists(), victimQueue, candidateQueue, ci) by {
        PlannedStarts(r, start);
        StagedInProbation(Lists(), start);
      }
      var turn := 0;
      while weightedSize > maximum
        invariant Valid() && typed.Keys <= r.typed.Keys && turn == |evicted| - |r.evicted|
        invariant Cursors(Lists(), victimQueue, victim, vi, candidateQueue, candidate, ci)
        invariant Staged(Lists(), victimQueue, candidateQueue, ci) && candidateQueue != InMainProtected
        invariant Going(r) && Planned(r, victimQueue, vi, candidateQueue, ci)
        decreases Size(Lists()), Stage(victimQueue, candidateQueue), Left(Lists(), victimQueue, vi, candidateQueue, ci)
      {
        if candidate == null && candidateQueue == InMainProbation {
          WindowEntered(r, victimQueue, victim, vi, ci);
          candidate := window.head;
          candidateQueue := InWindow;
          ci := 0;
        }
        if candidate == null && victim == null {
          if victimQueue == InMainProbation {
            QueueEntered(r, victimQueue, vi, candidateQueue, ci);
            victim := protected.head;
            victimQueue := InMainProtected;
            vi := 0;
            continue;
          } else if victimQueue == InMainProtected {
            QueueEntered(r, victimQueue, vi, candidateQueue, ci);
            victim := window.head;
            victimQueue := InWindow;
            vi := 0;
            continue;
          }
          assert forall q, k :: 0 <= k < |Lists().Get(q)| ==> Lists().Get(q)[k].weight == 0 by {
            NothingLeft(Lists(), vi, candidateQueue, candidate, ci);
          }
          assert evicted == r.evicted + r.plan by { PlanOver(r, vi, candidateQueue, ci); }
          break;
        }
        assert (victim != null ==> victim in typed && vi < |Lists().Get(victimQueue)| && Lists().Get(victimQueue)[vi] == victim)
            && (candidate != null ==> candidate in typed && ci < |Lists().Get(candidateQueue)| && Lists().Get(candidateQueue)[ci] == candidate) by {
          UnderCursors(victimQueue, victim, vi, candidateQueue, candidate, ci);
        }
        if victim != null && victim.weight == 0 {
          VictimSkipped(r, victimQueue, victim, vi, candidateQueue, candidate, ci);
          victim := victim.next;
          vi := vi + 1;
        } else if candidate != null && candidate.weight == 0 {
          CandidateSkipped(r, victimQueue, victim, vi, candidateQueue, candidate, ci);
          candidate := candidate.next;
          ci := ci + 1;
        } else {
          victim, candidate, ci := EvictOne(victim, victimQueue, vi, candidate, candidateQueue, ci, judge, turn, r);
          turn := turn + 1;
        }
      }
      assert Gone(r.typed, typed, r.evicted, evicted) && Needed(r.evicted, evicted, weightedSize, maximum) && Remains(r.lists, Lists(), r.evicted, evicted) by {
        GoingSays(r);
      }
      if weightedSize <= maximum {
        assert evicted == r.evicted + r.plan by { PlanFits(r, victimQueue, vi, candidateQueue, ci); }
      }
    }

    lemma GoingSays(r: Round)
      requires Going(r)
      ensures Gone(r.typed, typed, r.evicted, evicted) && Needed(r.evicted, evicted, weightedSize, maximum)
      ensures Remains(r.lists, Lists(), r.evicted, evicted)
    {
    }

    lemma AliveNow(r: Round, n: Node)
      requires Going(r) && n in typed
      ensures (n.state == Alive <==> n in r.alive) && r.maximum == maximum
    {
    }

    /** Nothing is left to choose from: the plan is over. */
    lemma PlanOver(r: Round, vi: nat, cq: Queue, ci: nat)
      requires Cursors(Lists(), InWindow, null, vi, cq, null, ci) && Staged(Lists(), InWindow, cq, ci) && Planned(r, InWindow, vi, cq, ci)
      ensures evicted == r.evicted + r.plan
    {
      NoView(Lists(), vi, cq, ci);
      assert Plan(View(Lists(), InWindow, vi, cq, ci), r.alive, r.maximum, r.judge, weightedSize, |evicted| - |r.evicted|) == [];
      assert evicted == evicted[..|r.evicted|] + evicted[|r.evicted|..];
    }

    lemma PlanFits(r: Round, vq: Queue, vi: nat, cq: Queue, ci: nat)
      requires Planned(r, vq, vi, cq, ci) && Going(r) && weightedSize <= maximum
      ensures evicted == r.evicted + r.plan
    {
      hide View;
      assert evicted == evicted[..|r.evicted|] + evicted[|r.evicted|..];
    }

    /** The eviction part of a maintenance cycle. */
    method EvictNodes(judge: Judge) returns (ghost k: nat)
      requires Valid()
      modifies `weightedSize, `windowWeightedSize, `mainProtectedWeightedSize, `typed, `evicted, typed.Keys`state, typed.Keys`queueType
      modifies window, probation, protected, typed.Keys`prev, typed.Keys`next
      ensures Valid()
      ensures weightedSize <= maximum || forall q, k :: 0 <= k < |Lists().Get(q)| ==> Lists().Get(q)[k].weight == 0
      ensures Departed(old(typed), typed, old(evicted), evicted)
      ensures Needed(old(evicted), evicted, weightedSize, maximum)
      ensures k <= |old(Lists()).window| && Remains(Expelled(old(Lists()), k), Lists(), old(evicted), evicted)
      ensures evicted == old(evicted) +
        Plan(Choices(Expelled(old(Lists()), k), |old(Lists()).probation|), old(Living()), maximum, judge, old(weightedSize), 0)
    {
      hide Valid, Gone, Expelled, Needed, Remains, Plan, View;
      ghost var typed0 := typed;
      var candidate;
      candidate, k := EvictFromWindow();
      ghost var typed1 := typed;
      assert Living() == old(Living());
      EvictFromMain(candidate, judge, |old(Lists()).probation|);
      assert Departed(typed0, typed, old(evicted), evicted) by {
        GoneDeparted(typed0, typed1, typed, old(evicted), evicted);
      }
    }

    // ---------- Climbing ----------

    /** Demotes the oldest protected entries while the protected space is too heavy. */
    method DemoteFromMainProtected() returns (ghost k: nat)
      requires Valid()
      modifies `mainProtectedWeightedSize, `typed, typed.Keys`queueType
      modifies window, probation, protected, typed.Keys`prev, typed.Keys`next
      ensures Valid() && typed.Keys == old(typed.Keys)
      ensures k <= |old(Lists()).protected| && Lists() == Demoted(old(Lists()), k)
      ensures Demotes(old(Lists()).protected, old(mainProtectedWeightedSize), mainProtectedMaximum, k)
      ensures mainProtectedWeightedSize == Minus(old(mainProtectedWeightedSize), WeightOf(old(Lists()).protected[..k]))
    {
      hide Matches, Limits, Balanced, Minus, Plus, Demoted, Remove, WeightOf;
      ghost var c := Lists();
      var size: nat := mainProtectedWeightedSize;
      ghost var size0 := size;
      assert size < TWO_64 by { BalancedBounds(Plus(weightedSize, pending), windowWeightedSize, size, typed); }
      k := 0;
      assert Demoted(c, 0) == c by { DemotedNone(c); }
      assert Minus(size, WeightOf(c.protected[..0])) == size by { PrefixNone(size, c.protected); }
      if size > mainProtectedMaximum {
        var i := 0;
        while i < QUEUE_TRANSFER_THRESHOLD
          invariant i == k <= QUEUE_TRANSFER_THRESHOLD && k <= |c.protected|
          invariant Matches() && typed.Keys == old(typed.Keys)
          invariant Balanced(Plus(weightedSize, pending), windowWeightedSize, size, typed)
          invariant Lists() == Demoted(c, k)
          invariant size == Minus(size0, WeightOf(c.protected[..k]))
          invariant k > 0 ==> Minus(size0, WeightOf(c.protected[..k - 1])) > mainProtectedMaximum
        {
          if size <= mainProtectedMaximum {
            break;
          }
          assert protected.head == At(c.protected, k) by {
            HeadIs(InMainProtected);
            DemotedHead(c, k);
          }
          if protected.head == null {
            break;
          }
          var demoted: Node := protected.head;
          assert k < |c.protected| && demoted == c.protected[k] && demoted in typed && typed[demoted] == InMainProtected && OnQueue(demoted) by {
            DemotedHead(c, k);
            CursorAt(InMainProtected, 0);
          }
          assert Demoted(c, k + 1) == Lists().(protected := Remove(Lists().protected, demoted), probation := Lists().probation + [demoted]) by {
            DemotedNext(c, k);
          }
          assert Balanced(Plus(weightedSize, pending), windowWeightedSize, Minus(size, demoted.weight), typed[demoted := InMainProbation]) by {
            BalancedRetype(Plus(weightedSize, pending), windowWeightedSize, size, typed, demoted, InMainProbation);
          }
          assert Minus(size, demoted.weight) == Minus(size0, WeightOf(c.protected[..k + 1])) by {
            PrefixNext(size0, c.protected, k);
          }
          Transfer(demoted, InMainProbation);
          size := Minus(size, demoted.weight);
          i, k := i + 1, k + 1;
        }
      }
      mainProtectedWeightedSize := size;
    }

    /** An entry of the main space moves to the back of the window. */
    method Recruit(n: Node)
      requires Valid() && n in typed && OnQueue(n) && typed[n] != InWindow
      modifies `windowWeightedSize, `mainProtectedWeightedSize, `typed, n`queueType
      modifies window, probation, protected, typed.Keys`prev, typed.Keys`next
      ensures Valid() && typed == old(typed)[n := InWindow] && windowWeightedSize == Plus(old(windowWeightedSize), n.weight)
      ensures var from := old(typed)[n];
        Lists() == old(Lists()).Set(from, Remove(old(Lists()).Get(from), n)).Set(InWindow, old(Lists()).window + [n])
    {
      hide Matches, Limits, Remove, Balanced, Plus, Minus;
      assert n.queueType == typed[n] by { MatchesAt(n); }
      assert Balanced(Plus(weightedSize, pending), Plus(windowWeightedSize, n.weight),
                      if typed[n] == InMainProtected then Minus(mainProtectedWeightedSize, n.weight) else mainProtectedWeightedSize, typed[n := InWindow]) by {
        BalancedRetype(Plus(weightedSize, pending), windowWeightedSize, mainProtectedWeightedSize, typed, n, InWindow);
      }
      if n.queueType == InMainProtected {
        mainProtectedWeightedSize := Minus(mainProtectedWeightedSize, n.weight);
      }
      windowWeightedSize := Plus(windowWeightedSize, n.weight);
      Transfer(n, InWindow);
    }

    /** The oldest entry of probation, or else of protected, that the quota allows to move to the window. */
    method Recruitable(quota: nat) returns (candidate: Node?)
      requires Valid()
      ensures candidate != null ==> candidate in typed && OnQueue(candidate) && candidate.weight <= quota
      ensures if HeadFits(Lists().probation, quota) then candidate == Lists().probation[0] && typed[candidate] == InMainProbation
        else if HeadFits(Lists().protected, quota) then candidate == Lists().protected[0] && typed[candidate] == InMainProtected
        else candidate == null
    {
      hide Valid;
      assert probation.head == At(Lists().probation, 0) && protected.head == At(Lists().protected, 0) by {
        HeadOf(InMainProbation);
        HeadOf(InMainProtected);
      }
      if Lists().probation != [] {
        CursorOf(InMainProbation, 0);
      }
      if Lists().protected != [] {
        CursorOf(InMainProtected, 0);
      }
      candidate := probation.head;
      if candidate == null || quota < candidate.weight {
        candidate := protected.head;
      }
      if candidate != null && quota < candidate.weight {
        candidate := null;
      }
    }

    /** Quota moves from the protected limit to the window's, or back. */
    method ShiftLimits(quota: int)
      requires Valid() && 0 <= windowMaximum + quota && quota <= mainProtectedMaximum
      modifies `windowMaximum, `mainProtectedMaximum
      ensures Valid() && windowMaximum == old(windowMaximum) + quota && mainProtectedMaximum == old(mainProtectedMaximum) - quota
    {
      hide Matches, Ledger;
      mainProtectedMaximum := mainProtectedMaximum - quota;
      windowMaximum := windowMaximum + quota;
    }

    /** Moves entries to the window while the quota allows: the oldest of probation, then the oldest protected ones. */
    method FillWindow(quota: nat) returns (rest: nat, ghost p: nat, ghost d: nat)
      requires Valid()
      modifies `windowWeightedSize, `mainProtectedWeightedSize, `typed, typed.Keys`queueType
      modifies window, probation, protected, typed.Keys`prev, typed.Keys`next
      ensures Valid() && typed.Keys == old(typed.Keys)
      ensures Recruits(old(Lists()), p, d) && Lists() == Recruited(old(Lists()), p, d)
      ensures rest <= quota && windowWeightedSize == Plus(old(windowWeightedSize), quota - rest)
      ensures p + d == QUEUE_TRANSFER_THRESHOLD || !(HeadFits(Lists().probation, rest) || HeadFits(Lists().protected, rest))
      ensures p + d <= QUEUE_TRANSFER_THRESHOLD
    {
      hide Valid, Plus, Recruited, Remove;
      rest, p, d := quota, 0, 0;
      ghost var c, size := Lists(), windowWeightedSize;
      assert Recruited(c, 0, 0) == c by { RecruitedNone(c); }
      assert Plus(size, 0) == size by { SizeBound(); PlusZero(size); }
      var i := 0;
      while i < QUEUE_TRANSFER_THRESHOLD
        invariant Valid() && typed.Keys == old(typed.Keys)
        invariant i == p + d <= QUEUE_TRANSFER_THRESHOLD && Recruits(c, p, d) && Lists() == Recruited(c, p, d)
        invariant d > 0 ==> !HeadFits(Lists().probation, rest)
        invariant rest <= quota && windowWeightedSize == Plus(size, quota - rest)
      {
        var candidate := Recruitable(rest);
        if candidate == null {
          break;
        }
        ghost var fromProbation := HeadFits(Lists().probation, rest);
        ghost var p', d' := if fromProbation then p + 1 else p, if fromProbation then d else d + 1;
        RecruitNext(c, p, d, fromProbation);
        assert Plus(Plus(size, quota - rest), candidate.weight) == Plus(size, quota - (rest - candidate.weight)) by {
          PlusPlus(size, quota - rest, candidate.weight);
        }
        Recruit(candidate);
        assert Lists() == Recruited(c, p', d');
        p, d, rest, i := p', d', rest - candidate.weight, i + 1;
      }
    }

    /**
      Enlarges the window at the expense of the protected space, and fills it from the main space: with
      the oldest entries of probation as long as they fit, then with the oldest protected ones.
    */
    method IncreaseWindow() returns (ghost k: nat, ghost p: nat, ghost d: nat)
      requires Valid() && adjustment > 0
      modifies `windowMaximum, `mainProtectedMaximum, `adjustment, `windowWeightedSize, `mainProtectedWeightedSize, `typed, typed.Keys`queueType
      modifies window, probation, protected, typed.Keys`prev, typed.Keys`next
      ensures Valid() && typed.Keys == old(typed.Keys)
      ensures k <= |old(Lists()).protected| && Recruits(Demoted(old(Lists()), k), p, d)
      ensures Lists() == Recruited(Demoted(old(Lists()), k), p, d)
      ensures windowMaximum + mainProtectedMaximum == old(windowMaximum + mainProtectedMaximum) && windowMaximum >= old(windowMaximum)
      ensures windowWeightedSize == Plus(old(windowWeightedSize), windowMaximum - old(windowMaximum))
      ensures old(mainProtectedMaximum) == 0 ==> adjustment == old(adjustment) && k == p == d == 0
      ensures old(mainProtectedMaximum) > 0 ==>
        && adjustment + windowMaximum - old(windowMaximum) == Min(old(adjustment), old(mainProtectedMaximum)) && adjustment >= 0
        && Demotes(old(Lists()).protected, old(mainProtectedWeightedSize), old(mainProtectedMaximum) - Min(old(adjustment), old(mainProtectedMaximum)), k)
        && (p + d == QUEUE_TRANSFER_THRESHOLD || !(HeadFits(Lists().probation, adjustment) || HeadFits(Lists().protected, adjustment)))
    {
      hide Valid, Plus, Recruited, Demoted, Demotes, WeightOf;
      k, p, d := 0, 0, 0;
      if mainProtectedMaximum == 0 {
        ghost var c, size := Lists(), windowWeightedSize;
        assert Plus(size, 0) == size by { SizeBound(); PlusZero(size); }
        assert Recruited(Demoted(c, 0), 0, 0) == c by { DemotedNone(c); RecruitedNone(c); }
        return;
      }
      var quota: nat := adjustment;
      if mainProtectedMaximum < quota {
        quota := mainProtectedMaximum;
      }
      ShiftLimits(quota);
      k := DemoteFromMainProtected();
      var rest: nat;
      rest, p, d := FillWindow(quota);
      var back: int := rest;
      ShiftLimits(-back);
      adjustment := rest;
    }

    /** Moves the oldest entries of the window to probation while the quota allows. */
    method DrainWindow(quota: nat) returns (rest: nat, ghost k: nat)
      requires Valid()
      modifies `windowWeightedSize, `typed, typed.Keys`queueType
      modifies window, probation, protected, typed.Keys`prev, typed.Keys`next
      ensures Valid() && typed.Keys == old(typed.Keys)
      ensures k <= |old(Lists()).window| && Lists() == Shed(old(Lists()), k)
      ensures rest <= quota && windowWeightedSize == Minus(old(windowWeightedSize), quota - rest)
      ensures k == QUEUE_TRANSFER_THRESHOLD || !HeadFits(Lists().window, rest)
      ensures k <= QUEUE_TRANSFER_THRESHOLD
    {
      hide Valid, Minus, Shed, Remove;
      rest, k := quota, 0;
      ghost var c, size := Lists(), windowWeightedSize;
      assert Shed(c, 0) == c by { ShedNone(c); }
      assert Minus(size, 0) == size by { SizeBound(); MinusZero(size); }
      var i := 0;
      while i < QUEUE_TRANSFER_THRESHOLD
        invariant Valid() && typed.Keys == old(typed.Keys)
        invariant i == k <= QUEUE_TRANSFER_THRESHOLD && k <= |c.window| && Lists() == Shed(c, k)
        invariant rest <= quota && windowWeightedSize == Minus(size, quota - rest)
      {
        assert window.head == At(Lists().window, 0) by { HeadOf(InWindow); }
        if window.head == null || rest < window.head.weight {
          break;
        }
        var candidate: Node := window.head;
        assert candidate in typed && typed[candidate] == InWindow && OnQueue(candidate) by { CursorOf(InWindow, 0); }
        ShedNext(c, k);
        assert Minus(Minus(size, quota - rest), candidate.weight) == Minus(size, quota - (rest - candidate.weight)) by {
          MinusMinus(size, quota - rest, candidate.weight);
        }
        Expel(candidate);
        rest, i, k := rest - candidate.weight, i + 1, k + 1;
      }
    }

    /** Shrinks the window in favour of the protected space, and moves its oldest entries to probation as long as they fit. */
    method DecreaseWindow() returns (ghost k: nat)
      requires Valid() && adjustment < 0
      modifies `windowMaximum, `mainProtectedMaximum, `adjustment, `windowWeightedSize, `typed, typed.Keys`queueType
      modifies window, probation, protected, typed.Keys`prev, typed.Keys`next
      ensures Valid() && typed.Keys == old(typed.Keys)
      ensures k <= |old(Lists()).window| && Lists() == Shed(old(Lists()), k)
      ensures windowMaximum + mainProtectedMaximum == old(windowMaximum + mainProtectedMaximum) && windowMaximum <= old(windowMaximum)
      ensures windowWeightedSize == Minus(old(windowWeightedSize), old(windowMaximum) - windowMaximum)
      ensures old(windowMaximum) <= 1 ==> adjustment == old(adjustment) && k == 0 && windowMaximum == old(windowMaximum)
      ensures old(windowMaximum) > 1 ==>
        && old(windowMaximum) - windowMaximum - adjustment == Min(-(old(adjustment) as int), old(windowMaximum) - 1)
        && adjustment <= 0 && windowMaximum >= 1
        && (k == QUEUE_TRANSFER_THRESHOLD || !HeadFits(Lists().window, -(adjustment as int)))
    {
      hide Valid, Minus, Shed;
      k := 0;
      if windowMaximum <= 1 {
        ghost var c, size := Lists(), windowWeightedSize;
        assert Shed(c, 0) == c by { ShedNone(c); }
        assert Minus(size, 0) == size by { SizeBound(); MinusZero(size); }
        return;
      }
      assert windowMaximum <= MAX_INT64 by { LimitsBound(); }
      var negated: int64 := if adjustment == -MAX_INT64 - 1 then adjustment else -adjustment;
      var quota: int64 := negated;
      if windowMaximum - 1 < Unsigned(negated) {
        quota := windowMaximum - 1;
      }
      ShiftLimits(-quota);
      var rest: nat;
      rest, k := DrainWindow(quota);
      assert rest <= MAX_INT64 && rest <= mainProtectedMaximum;
      ShiftLimits(rest);
      var left: int := rest;
      adjustment := -left;
    }

    lemma LimitsBound()
      requires Valid()
      ensures windowMaximum + mainProtectedMaximum <= MAX_INT64
    {
    }

    /**
      One step of the climber, whatever adjustment the hit rates suggest: the oldest protected entries are demoted
      as long as there are too many, then the window is enlarged or shrunk.
    */
    method Climb(suggested: int64) returns (ghost demoted: nat, ghost k: nat, ghost p: nat, ghost d: nat)
      requires Valid()
      modifies `windowMaximum, `mainProtectedMaximum, `adjustment, `windowWeightedSize, `mainProtectedWeightedSize, `typed, typed.Keys`queueType
      modifies window, probation, protected, typed.Keys`prev, typed.Keys`next
      ensures Valid() && typed.Keys == old(typed.Keys) && OnLists(Lists()) == old(OnLists(Lists()))
      ensures windowMaximum + mainProtectedMaximum == old(windowMaximum + mainProtectedMaximum)
      ensures (windowWeightedSize - windowMaximum) % TWO_64 == (old(windowWeightedSize) - old(windowMaximum)) % TWO_64
      ensures old(windowMaximum) >= 1 ==> windowMaximum >= 1
      ensures Demotes(old(Lists()).protected, old(mainProtectedWeightedSize), old(mainProtectedMaximum), demoted)
      ensures suggested == 0 ==> Lists() == Demoted(old(Lists()), demoted) && windowMaximum == old(windowMaximum) && adjustment == 0
      ensures suggested > 0 ==>
        var c := Demoted(old(Lists()), demoted);
        && k <= |c.protected| && Recruits(Demoted(c, k), p, d) && Lists() == Recruited(Demoted(c, k), p, d)
        && windowMaximum >= old(windowMaximum)
        && if old(mainProtectedMaximum) == 0 then windowMaximum == old(windowMaximum) && adjustment == suggested && k == p == d == 0
           else
             && adjustment + windowMaximum - old(windowMaximum) == Min(suggested, old(mainProtectedMaximum)) && adjustment >= 0
             && (p + d == QUEUE_TRANSFER_THRESHOLD || !(HeadFits(Lists().probation, adjustment) || HeadFits(Lists().protected, adjustment)))
      ensures suggested < 0 ==>
        var c := Demoted(old(Lists()), demoted);
        && k <= |c.window| && Lists() == Shed(c, k) && windowMaximum <= old(windowMaximum)
        && if old(windowMaximum) <= 1 then windowMaximum == old(windowMaximum) && adjustment == suggested && k == 0
           else
             && old(windowMaximum) - windowMaximum - adjustment == Min(-(suggested as int), old(windowMaximum) - 1) && adjustment <= 0
             && (k == QUEUE_TRANSFER_THRESHOLD || !HeadFits(Lists().window, -(adjustment as int)))
    {
      hide Valid, OnLists, Plus, Minus, Demoted, Recruited, Shed, HeadFits, Recruits, Demotes, WeightOf;
      adjustment := suggested;
      ghost var c := Lists();
      k, p, d := 0, 0, 0;
      demoted := DemoteFromMainProtected();
      assert OnLists(Demoted(c, demoted)) == OnLists(c) by { DemotedKeeps(c, demoted); }
      ghost var c1, size, limit := Lists(), windowWeightedSize, windowMaximum;
      if adjustment > 0 {
        k, p, d := IncreaseWindow();
        assert OnLists(Lists()) == OnLists(c1) by {
          DemotedKeeps(c1, k);
          RecruitedKeeps(Demoted(c1, k), p, d);
        }
        assert (windowWeightedSize - windowMaximum) % TWO_64 == (size - limit) % TWO_64 by {
          ShiftedUp(size, windowMaximum - limit, limit);
        }
      } else if adjustment < 0 {
        k := DecreaseWindow();
        assert OnLists(Lists()) == OnLists(c1) by { ShedKeeps(c1, k); }
        assert (windowWeightedSize - windowMaximum) % TWO_64 == (size - limit) % TWO_64 by {
          ShiftedDown(size, limit - windowMaximum, limit);
        }
      }
    }

    /** The limits are recomputed from a new maximum; how the maximum is divided is left open. */
    method SetMaximumSize(maximum: nat, window: nat, mainProtected: nat)
      requires Valid() && maximum <= MAX_INT64 && window + mainProtected <= maximum
      modifies `maximum, `windowMaximum, `mainProtectedMaximum
      ensures Valid() && this.maximum == maximum
      ensures maximum != old(this.maximum) ==> windowMaximum == window && mainProtectedMaximum == mainProtected
    {
      hide Matches, Ledger;
      if maximum == this.maximum {
        return;
      }
      this.maximum := maximum;
      windowMaximum := window;
      mainProtectedMaximum := mainProtected;
    }
  }

  /** The queues once the k oldest protected entries have been demoted. */
  /**
    Of the list, oldest first, k entries leave a queue of the given total: no more than it takes to come down to the maximum, and
    fewer only if there are no more, or the threshold is met.
  */
  ghost predicate Demotes(l: seq<Node>, size: nat, maximum: nat, k: nat) {
    && k <= |l| && k <= QUEUE_TRANSFER_THRESHOLD
    && (k > 0 ==> Minus(size, WeightOf(l[..k - 1])) > maximum)
    && (Minus(size, WeightOf(l[..k])) <= maximum || k == QUEUE_TRANSFER_THRESHOLD || k == |l|)
  }

  lemma PrefixNone(size: nat, l: seq<Node>)
    requires size < TWO_64
    ensures Minus(size, WeightOf(l[..0])) == size
  {
    MinusZero(size);
  }

  lemma PrefixNext(size: nat, l: seq<Node>, k: nat)
    requires k < |l|
    ensures Minus(Minus(size, WeightOf(l[..k])), l[k].weight) == Minus(size, WeightOf(l[..k + 1]))
  {
    hide Minus;
    assert l[..k + 1][..k] == l[..k];
    MinusMinus(size, WeightOf(l[..k]), l[k].weight);
  }

  function Demoted(c: Contents, k: nat): Contents
    requires k <= |c.protected|
  {
    c.(protected := c.protected[k..], probation := c.probation + c.protected[..k])
  }

  lemma DemotedNone(c: Contents)
    ensures Demoted(c, 0) == c
  {
  }

  lemma DemotedHead(c: Contents, k: nat)
    requires k <= |c.protected|
    ensures At(Demoted(c, k).protected, 0) == At(c.protected, k)
    ensures k < |c.protected| <==> Demoted(c, k).protected != []
  {
  }

  lemma DemotedKeeps(c: Contents, k: nat)
    requires k <= |c.protected|
    ensures OnLists(Demoted(c, k)) == OnLists(c)
  {
    var p := c.protected;
    assert p == p[..k] + p[k..];
    assert forall m :: m in p <==> m in p[..k] || m in p[k..];
  }

  lemma DemotedNext(c: Contents, k: nat)
    requires k < |c.protected|
    ensures var n, d := c.protected[k], Demoted(c, k);
      d.protected[0] == n && Demoted(c, k + 1) == d.(protected := Remove(d.protected, n), probation := d.probation + [n])
  {
    assert c.protected[..k + 1] == c.protected[..k] + [c.protected[k]];
  }

  /** There is an oldest entry, and it weighs no more than the quota. */
  predicate HeadFits(l: seq<Node>, quota: int) {
    l != [] && l[0].weight <= quota
  }

  predicate Recruits(c: Contents, p: nat, d: nat) {
    p <= |c.probation| && d <= |c.protected|
  }

  /** The queues once the p oldest entries of probation and then the d oldest protected ones have joined the window. */
  function Recruited(c: Contents, p: nat, d: nat): Contents
    requires Recruits(c, p, d)
  {
    Contents(c.window + c.probation[..p] + c.protected[..d], c.probation[p..], c.protected[d..])
  }

  lemma RecruitedNone(c: Contents)
    ensures Recruited(c, 0, 0) == c
  {
  }

  lemma RecruitNext(c: Contents, p: nat, d: nat, fromProbation: bool)
    requires Recruits(c, p, d)
    requires fromProbation ==> d == 0 && Recruited(c, p, d).probation != []
    requires !fromProbation ==> Recruited(c, p, d).protected != []
    ensures var q, e := if fromProbation then InMainProbation else InMainProtected, Recruited(c, p, d);
      && Recruits(c, if fromProbation then p + 1 else p, if fromProbation then d else d + 1)
      && Recruited(c, if fromProbation then p + 1 else p, if fromProbation then d else d + 1)
         == e.Set(q, Remove(e.Get(q), e.Get(q)[0])).Set(InWindow, e.window + [e.Get(q)[0]])
  {
    if fromProbation {
      assert c.probation[..p + 1] == c.probation[..p] + [c.probation[p]];
      assert c.protected[..0] == [];
    } else {
      assert c.protected[..d + 1] == c.protected[..d] + [c.protected[d]];
    }
  }

  lemma RecruitedKeeps(c: Contents, p: nat, d: nat)
    requires Recruits(c, p, d)
    ensures OnLists(Recruited(c, p, d)) == OnLists(c)
  {
    assert c.probation == c.probation[..p] + c.probation[p..];
    assert forall m :: m in c.probation <==> m in c.probation[..p] || m in c.probation[p..];
    assert c.protected == c.protected[..d] + c.protected[d..];
    assert forall m :: m in c.protected <==> m in c.protected[..d] || m in c.protected[d..];
  }

  /** The queues once the k oldest entries of the window have moved to probation. */
  function Shed(c: Contents, k: nat): Contents
    requires k <= |c.window|
  {
    c.(window := c.window[k..], probation := c.probation + c.window[..k])
  }

  lemma ShedNone(c: Contents)
    ensures Shed(c, 0) == c
  {
  }

  lemma ShedNext(c: Contents, k: nat)
    requires k <= |c.window| && Shed(c, k).window != []
    ensures var e := Shed(c, k);
      k < |c.window| && Shed(c, k + 1) == e.(window := Remove(e.window, e.window[0]), probation := e.probation + [e.window[0]])
  {
    assert c.window[..k + 1] == c.window[..k] + [c.window[k]];
  }

  lemma ShedKeeps(c: Contents, k: nat)
    requires k <= |c.window|
    ensures OnLists(Shed(c, k)) == OnLists(c)
  {
    assert c.window == c.window[..k] + c.window[k..];
    assert forall m :: m in c.window <==> m in c.window[..k] || m in c.window[k..];
  }

  ghost function OnLists(c: Contents): set<Node> {
    (set n | n in c.window) + (set n | n in c.probation) + (set n | n in c.protected)
  }

  lemma InSome(c: Contents, m: Node)
    ensures m in OnLists(c) <==> exists q :: m in c.Get(q)
  {
    assert m in c.window ==> m in c.Get(InWindow);
    assert m in c.probation ==> m in c.Get(InMainProbation);
    assert m in c.protected ==> m in c.Get(InMainProtected);
  }

  ghost function WeightOf(l: seq<Node>): nat {
    if l == [] then 0 else WeightOf(l[..|l| - 1]) + l[|l| - 1].weight
  }

  /** Every eviction since was needed: before it, with its weight and that of all later ones, the cache was too heavy. */
  ghost predicate Needed(evicted0: seq<Node>, evicted: seq<Node>, size: nat, maximum: nat) {
    forall j :: |evicted0| <= j < |evicted| ==> Plus(size, WeightOf(evicted[j..])) > maximum
  }

  lemma NeededNone(evicted: seq<Node>, size: nat, maximum: nat)
    ensures Needed(evicted, evicted, size, maximum)
  {
  }

  lemma NeededNext(evicted0: seq<Node>, evicted: seq<Node>, size: nat, maximum: nat, n: Node)
    requires Needed(evicted0, evicted, size, maximum) && maximum < size < TWO_64
    ensures Needed(evicted0, evicted + [n], Minus(size, n.weight), maximum)
  {
    var more := evicted + [n];
    hide Plus, Minus;
    forall j | |evicted0| <= j < |more| ensures Plus(Minus(size, n.weight), WeightOf(more[j..])) > maximum {
      assert more[j..] == evicted[j..] + [n];
      assert more[j..][..|more[j..]| - 1] == evicted[j..];
      PlusOfMinus(size, n.weight, WeightOf(evicted[j..]));
      if j == |evicted| {
        PlusZero(size);
      }
    }
  }

  /** The evictions since are all that left the books, where other entries may have changed their type. */
  ghost predicate Departed(typed0: map<Node, Queue>, typed: map<Node, Queue>, evicted0: seq<Node>, evicted: seq<Node>) {
    && evicted0 <= evicted && NoDup(evicted[|evicted0|..])
    && typed.Keys == typed0.Keys - (set n | n in evicted[|evicted0|..])
    && (forall n :: n in evicted[|evicted0|..] ==> n in typed0 && n.weight > 0)
  }

  lemma GoneDeparted(typed0: map<Node, Queue>, typed1: map<Node, Queue>, typed: map<Node, Queue>, evicted0: seq<Node>, evicted: seq<Node>)
    requires typed0.Keys == typed1.Keys && Gone(typed1, typed, evicted0, evicted)
    ensures Departed(typed0, typed, evicted0, evicted)
  {
  }

  ghost function Size(c: Contents): nat {
    |c.window| + |c.probation| + |c.protected|
  }

  // ---------- What the cursors leave to choose from ----------

  /** An eviction round: what there was when it began, and its plan. */
  datatype Round = Round(typed: map<Node, Queue>, evicted: seq<Node>, lists: Contents, alive: set<Node>, maximum: nat, judge: Judge, plan: seq<Node>)

  /** What has weight from position i on. */
  function Ahead(l: seq<Node>, i: nat): seq<Node> {
    if i <= |l| then Heavy(l[i..]) else []
  }

  /** What the two cursors have ahead. */
  function View(c: Contents, vq: Queue, vi: nat, cq: Queue, ci: nat): Scene {
    Scene(if vq == InMainProbation then Ahead(c.probation, vi) else [],
          if cq == InMainProbation then Ahead(c.probation, ci) else [],
          if cq == InMainProbation then Ahead(c.window, 0) else Ahead(c.window, ci),
          match vq
          case InMainProbation => Ahead(c.protected, 0) + Ahead(c.window, 0)
          case InMainProtected => Ahead(c.protected, vi) + Ahead(c.window, 0)
          case InWindow => Ahead(c.window, vi))
  }

  /** What there is to choose from when candidates have entered probation at position `start`. */
  function Choices(c: Contents, start: nat): Scene {
    View(c, InMainProbation, 0, InMainProbation, start)
  }

  /** Protected entries and those of the window are victims only when the candidates have been gone through. */
  predicate Staged(c: Contents, vq: Queue, cq: Queue, ci: nat) {
    vq != InMainProbation ==> cq == InWindow && ci == |c.window|
  }

  predicate VictimGoes(r: Round, victim: Node, candidate: Node?, turn: nat) {
    candidate == null || victim !in r.alive
    || (candidate in r.alive && candidate.weight <= r.maximum && Admits(r.judge, candidate, victim, turn))
  }

  /** The candidate stays, and its turn is over. */
  predicate Passes(r: Round, victim: Node, candidate: Node?) {
    candidate != null && victim in r.alive
  }

  lemma PlanShifts(before: seq<Node>, k: nat, n: Node, plan: seq<Node>)
    requires k <= |before|
    ensures (before + [n])[k..] + plan == before[k..] + ([n] + plan)
  {
    assert (before + [n])[k..] == before[k..] + [n];
  }

  lemma Unopposed(r: Round, victim: Node, turn: nat)
    ensures VictimGoes(r, victim, null, turn) && !Passes(r, victim, null)
  {
  }

  lemma Decided(r: Round, victim: Node, candidate: Node, turn: nat)
    ensures victim !in r.alive ==> VictimGoes(r, victim, candidate, turn) && !Passes(r, victim, candidate)
    ensures victim in r.alive ==> Passes(r, victim, candidate)
    ensures victim in r.alive ==>
      (VictimGoes(r, victim, candidate, turn) <==>
         candidate in r.alive && candidate.weight <= r.maximum && Admits(r.judge, candidate, victim, turn))
  {
  }

  lemma StagedInProbation(c: Contents, ci: nat)
    ensures Staged(c, InMainProbation, InMainProbation, ci)
  {
  }

  lemma StagedVictim(c: Contents, vq: Queue, vi: nat, cq: Queue, ci: nat)
    requires Staged(c, vq, cq, ci) && vi < |c.Get(vq)|
    ensures Staged(c.Set(vq, Without(c.Get(vq), vi)), vq, cq, if cq == vq && ci > vi then ci - 1 else ci)
  {
  }

  lemma StagedCandidate(c: Contents, vq: Queue, cq: Queue, ci: nat)
    requires Staged(c, vq, cq, ci) && ci < |c.Get(cq)|
    ensures Staged(c.Set(cq, Without(c.Get(cq), ci)), vq, cq, ci)
  {
  }

  lemma StagedShared(c: Contents, q: Queue, ci: nat)
    requires Staged(c, q, q, ci) && ci < |c.Get(q)|
    ensures q == InMainProbation
  {
  }

  lemma StagedNext(c: Contents, vq: Queue, victim: Node?, vi: nat, cq: Queue, candidate: Node, ci: nat)
    requires Staged(c, vq, cq, ci) && Cursors(c, vq, victim, vi, cq, candidate, ci)
    ensures Staged(c, vq, cq, ci + 1)
  {
  }

  lemma AheadNext(l: seq<Node>, i: nat)
    requires i < |l|
    ensures Ahead(l, i) == (if l[i].weight != 0 then [l[i]] else []) + Ahead(l, i + 1)
  {
    assert l[i..] == [l[i]] + l[i + 1..];
    HeavyConcat([l[i]], l[i + 1..]);
    assert [l[i]][..0] == [];
  }

  lemma AheadEnd(l: seq<Node>)
    ensures Ahead(l, |l|) == []
  {
  }

  /** A weightless victim or candidate is nobody's choice. */
  lemma VictimOutOfView(c: Contents, vq: Queue, vi: nat, cq: Queue, ci: nat)
    requires vi < |c.Get(vq)| && c.Get(vq)[vi].weight == 0
    ensures View(c, vq, vi, cq, ci) == View(c, vq, vi + 1, cq, ci)
  {
    hide Ahead;
    AheadNext(c.Get(vq), vi);
    assert Ahead(c.Get(vq), vi) == Ahead(c.Get(vq), vi + 1);
  }

  lemma CandidateOutOfView(c: Contents, vq: Queue, vi: nat, cq: Queue, ci: nat)
    requires cq != InMainProtected ==> ci < |c.Get(cq)| && c.Get(cq)[ci].weight == 0
    requires cq != InMainProtected && Staged(c, vq, cq, ci)
    ensures View(c, vq, vi, cq, ci) == View(c, vq, vi, cq, ci + 1) && Staged(c, vq, cq, ci + 1)
  {
    hide Ahead;
    AheadNext(c.Get(cq), ci);
  }

  lemma WindowInView(c: Contents, vq: Queue, victim: Node?, vi: nat, ci: nat)
    requires Cursors(c, vq, victim, vi, InMainProbation, null, ci) && Staged(c, vq, InMainProbation, ci)
    ensures View(c, vq, vi, InMainProbation, ci) == View(c, vq, vi, InWindow, 0) && Staged(c, vq, InWindow, 0)
  {
    hide Ahead;
    assert ci == |c.Get(InMainProbation)|;
    AheadEnd(c.probation);
  }

  lemma NextQueueInView(c: Contents, vq: Queue, vi: nat, cq: Queue, ci: nat)
    requires Cursors(c, vq, null, vi, cq, null, ci) && Staged(c, vq, cq, ci) && vq != InWindow && cq == InWindow
    ensures var next := if vq == InMainProbation then InMainProtected else InWindow;
      View(c, vq, vi, cq, ci) == View(c, next, 0, cq, ci) && Staged(c, next, cq, ci)
  {
    hide Ahead;
    assert vi == |c.Get(vq)| && ci == |c.Get(InWindow)|;
    AheadEnd(c.Get(vq));
  }

  lemma NoView(c: Contents, vi: nat, cq: Queue, ci: nat)
    requires Cursors(c, InWindow, null, vi, cq, null, ci) && Staged(c, InWindow, cq, ci)
    ensures View(c, InWindow, vi, cq, ci) == Scene([], [], [], [])
  {
    hide Ahead;
    assert vi == |c.Get(InWindow)| && ci == |c.Get(InWindow)|;
    AheadEnd(c.window);
  }

  /** Taking a node out of a list, as seen from a position that is not behind it, and from one that is. */
  lemma AheadLess(l: seq<Node>, i: nat, p: nat)
    requires p < |l| && i <= |l| && NoDup(l)
    ensures i <= p ==> Ahead(Without(l, p), i) == Rest(Ahead(l, i), {l[p]})
    ensures p < i ==> Ahead(Without(l, p), i - 1) == Ahead(l, i) == Rest(Ahead(l, i), {l[p]})
  {
    hide Heavy, Rest;
    HeavyRest(l[i..], {l[p]});
    if i <= p {
      assert Without(l, p)[i..] == Without(l[i..], p - i);
      RestWithout(l[i..], p - i);
    } else {
      assert Without(l, p)[i - 1..] == l[i..];
      RestOthers(l[i..], l[p]);
    }
  }

  lemma AheadOthers(l: seq<Node>, i: nat, n: Node)
    requires n !in l
    ensures Rest(Ahead(l, i), {n}) == Ahead(l, i)
  {
    if i <= |l| {
      HeavyIn(l[i..], n);
    }
    RestOthers(Ahead(l, i), n);
  }

  /** The lists have no node twice and none in common. */
  ghost predicate ListsDiffer(c: Contents) {
    (forall q :: NoDup(c.Get(q))) && (forall q, r, n :: q != r && n in c.Get(q) ==> n !in c.Get(r))
  }

  /** What is left to choose from once the node at position p of queue q has gone, for cursors that keep their places. */
  lemma ViewLess(c: Contents, q: Queue, p: nat, vq: Queue, vi: nat)
    requires ListsDiffer(c) && p < |c.Get(q)| && vi <= |c.Get(vq)| && (q == vq ==> vi <= p)
    ensures var n, c' := c.Get(q)[p], c.Set(q, Without(c.Get(q), p));
      && View(c', vq, vi, InWindow, 0).victims == Rest(View(c, vq, vi, InWindow, 0).victims, {n})
      && View(c', vq, vi, InWindow, 0).rest == Rest(View(c, vq, vi, InWindow, 0).rest, {n})
  {
    hide Ahead, NoDup, Without, Rest;
    var n, c' := c.Get(q)[p], c.Set(q, Without(c.Get(q), p));
    assert n in c.Get(q);
    GetSet(c, q, Without(c.Get(q), p));
    forall r, i: nat | i <= |c.Get(r)| && (r == q ==> i <= p) ensures Ahead(c'.Get(r), i) == Rest(Ahead(c.Get(r), i), {n}) {
      if r == q {
        AheadLess(c.Get(q), i, p);
      } else {
        AheadOthers(c.Get(r), i, n);
      }
    }
    assert c.window == c.Get(InWindow) && c.probation == c.Get(InMainProbation) && c.protected == c.Get(InMainProtected);
    assert c'.window == c'.Get(InWindow) && c'.probation == c'.Get(InMainProbation) && c'.protected == c'.Get(InMainProtected);
    RestConcat(Ahead(c.protected, if vq == InMainProtected then vi else 0), Ahead(c.window, 0), {n});
    assert Rest([], {n}) == [] by { RestNone({n}); }
  }

  lemma RestNone(gone: set<Node>)
    ensures Rest([], gone) == []
  {
  }

  /** The victims and what comes last do not depend on the candidates. */
  lemma ViewParts(c: Contents, vq: Queue, vi: nat, cq: Queue, ci: nat)
    ensures View(c, vq, vi, cq, ci).victims == View(c, vq, vi, InWindow, 0).victims
    ensures View(c, vq, vi, cq, ci).rest == View(c, vq, vi, InWindow, 0).rest
    ensures View(c, vq, vi, cq, ci).newcomers == if cq == InMainProbation then Ahead(c.probation, ci) else []
    ensures View(c, vq, vi, cq, ci).window == if cq == InMainProbation then Ahead(c.window, 0) else Ahead(c.window, ci)
  {
  }

  /** What the victim's going leaves of the candidates. */
  lemma CandidatesStay(c: Contents, vq: Queue, vi: nat, cq: Queue, ci: nat)
    requires ListsDiffer(c) && vi < |c.Get(vq)| && cq != InMainProtected && ci <= |c.Get(cq)| && (cq == vq ==> vi < ci)
    requires vq == InWindow ==> cq == InWindow && ci == |c.window|
    ensures var c' := c.Set(vq, Without(c.Get(vq), vi));
      var ci' := if cq == vq && ci > vi then ci - 1 else ci;
      && (cq == InMainProbation ==> Ahead(c'.probation, ci') == Ahead(c.probation, ci) && c'.window == c.window)
      && (cq == InWindow ==> Ahead(c'.window, ci') == Ahead(c.window, ci))
      && (ci < |c.Get(cq)| ==> Ahead(c'.Get(cq), ci' + 1) == Ahead(c.Get(cq), ci + 1))
  {
    hide Ahead, NoDup, Without;
    GetSet(c, vq, Without(c.Get(vq), vi));
    if cq == vq {
      AheadLess(c.Get(vq), ci, vi);
      if ci < |c.Get(cq)| {
        AheadLess(c.Get(vq), ci + 1, vi);
      }
    }
  }

  lemma VictimTurn(c: Contents, vq: Queue, victim: Node, vi: nat, cq: Queue, candidate: Node?, ci: nat, r: Round, turn: nat)
    requires Cursors(c, vq, victim, vi, cq, candidate, ci) && Staged(c, vq, cq, ci) && ListsDiffer(c)
    requires victim.weight > 0 && victim != candidate && (cq == vq ==> ci != vi)
    requires if candidate == null then cq == InWindow else candidate.weight > 0
    requires VictimGoes(r, victim, candidate, turn)
    ensures var c', ci' := c.Set(vq, Without(c.Get(vq), vi)), if cq == vq && ci > vi then ci - 1 else ci;
      Pick(View(c, vq, vi, cq, ci), r.alive, r.maximum, r.judge, turn)
        == Some(Turn(victim, View(c', vq, vi, cq, if Passes(r, victim, candidate) then ci' + 1 else ci')))
  {
    hide Ahead, NoDup, Without, Rest, Admits, View;
    var c', ci' := c.Set(vq, Without(c.Get(vq), vi)), if cq == vq && ci > vi then ci - 1 else ci;
    CursorsSee(c, vq, victim, vi, cq, candidate, ci);
    ViewLess(c, vq, vi, vq, vi);
    ViewParts(c, vq, vi, cq, ci);
    ViewParts(c', vq, vi, cq, ci');
    ViewParts(c', vq, vi, cq, ci' + 1);
    VictimFirst(c, vq, vi, cq, ci);
    CandidatesStay(c, vq, vi, cq, ci);
    CandidateFirst(c, vq, vi, cq, ci, candidate);
  }

  /** The victim is the first of the victims, or of what comes last. */
  lemma VictimFirst(c: Contents, vq: Queue, vi: nat, cq: Queue, ci: nat)
    requires vi < |c.Get(vq)| && c.Get(vq)[vi].weight > 0
    ensures var v := View(c, vq, vi, cq, ci);
      if vq == InMainProbation then v.victims != [] && v.victims[0] == c.Get(vq)[vi]
      else v.victims == [] && v.rest != [] && v.rest[0] == c.Get(vq)[vi]
  {
    hide Ahead;
    AheadNext(c.Get(vq), vi);
  }

  /** The candidate is the first of the candidates; without it there are none. */
  lemma CandidateFirst(c: Contents, vq: Queue, vi: nat, cq: Queue, ci: nat, candidate: Node?)
    requires cq != InMainProtected && ci <= |c.Get(cq)| && candidate == At(c.Get(cq), ci)
    requires if candidate == null then cq == InWindow else candidate.weight > 0
    ensures var v := View(c, vq, vi, cq, ci);
      if candidate == null then v.newcomers == [] && v.window == []
      else if cq == InMainProbation then v.newcomers == [candidate] + Ahead(c.probation, ci + 1)
      else v.newcomers == [] && v.window == [candidate] + Ahead(c.window, ci + 1)
  {
    hide Ahead;
    if candidate == null {
      AheadEnd(c.Get(cq));
    } else {
      AheadNext(c.Get(cq), ci);
    }
  }

  lemma CandidateTurn(c: Contents, vq: Queue, victim: Node?, vi: nat, cq: Queue, candidate: Node, ci: nat, r: Round, turn: nat)
    requires Cursors(c, vq, victim, vi, cq, candidate, ci) && Staged(c, vq, cq, ci) && ListsDiffer(c)
    requires candidate.weight > 0 && victim != candidate && (cq == vq ==> ci != vi)
    requires victim != null ==> victim.weight > 0 && !VictimGoes(r, victim, candidate, turn)
    ensures var c' := c.Set(cq, Without(c.Get(cq), ci));
      Pick(View(c, vq, vi, cq, ci), r.alive, r.maximum, r.judge, turn) == Some(Turn(candidate, View(c', vq, vi, cq, ci)))
  {
    hide Ahead, NoDup, Without, Rest, Admits, View;
    var c' := c.Set(cq, Without(c.Get(cq), ci));
    CursorsSee(c, vq, victim, vi, cq, candidate, ci);
    ViewLess(c, cq, ci, vq, vi);
    ViewParts(c, vq, vi, cq, ci);
    ViewParts(c', vq, vi, cq, ci);
    CandidateFirst(c, vq, vi, cq, ci, candidate);
    CandidateLeaves(c, cq, ci);
    if victim != null {
      VictimFirst(c, vq, vi, cq, ci);
    } else {
      NoVictims(c, vi, cq, ci);
    }
  }

  lemma NoVictims(c: Contents, vi: nat, cq: Queue, ci: nat)
    requires vi == |c.probation|
    ensures View(c, InMainProbation, vi, cq, ci).victims == []
  {
    hide Ahead;
    AheadEnd(c.probation);
  }

  lemma CandidateLeaves(c: Contents, cq: Queue, ci: nat)
    requires ListsDiffer(c) && cq != InMainProtected && ci < |c.Get(cq)| && c.Get(cq)[ci].weight > 0
    ensures var c' := c.Set(cq, Without(c.Get(cq), ci));
      && Ahead(c'.Get(cq), ci) == Ahead(c.Get(cq), ci + 1)
      && (cq == InMainProbation ==> c'.window == c.window)
  {
    hide Ahead, NoDup, Without;
    AheadLess(c.Get(cq), ci + 1, ci);
  }

  lemma SharedTurn(c: Contents, n: Node, i: nat, r: Round, turn: nat)
    requires Cursors(c, InMainProbation, n, i, InMainProbation, n, i) && ListsDiffer(c) && n.weight > 0
    ensures var l := Without(c.Get(InMainProbation), i); var c' := c.Set(InMainProbation, l);
      Pick(View(c, InMainProbation, i, InMainProbation, i), r.alive, r.maximum, r.judge, turn)
        == Some(Turn(n, View(c', InMainProbation, i, InMainProbation, |l|)))
  {
    hide Ahead, NoDup, Without, Rest, Admits, View;
    var l := Without(c.Get(InMainProbation), i);
    var c' := c.Set(InMainProbation, l);
    CursorsSee(c, InMainProbation, n, i, InMainProbation, n, i);
    ViewLess(c, InMainProbation, i, InMainProbation, i);
    ViewParts(c, InMainProbation, i, InMainProbation, i);
    ViewParts(c', InMainProbation, i, InMainProbation, |l|);
    VictimFirst(c, InMainProbation, i, InMainProbation, i);
    CandidateFirst(c, InMainProbation, i, InMainProbation, i, n);
    AheadEnd(l);
    GetSet(c, InMainProbation, l);
  }

  /** The choices of a round are the entries with weight: the victims in probation, the candidates from `start` on and in the window. */
  lemma ChoicesAre(c: Contents, start: nat)
    requires start <= |c.probation|
    ensures var v := Choices(c, start);
      && v.victims == Heavy(c.probation) && Candidates(v) == Heavy(c.probation[start..]) + Heavy(c.window)
      && v.rest == Heavy(c.protected) + Heavy(c.window)
  {
    assert c.probation[0..] == c.probation && c.window[0..] == c.window && c.protected[0..] == c.protected;
  }

  /**
    On the lists: as long as the oldest entry with weight that is left in probation has been retired, it is the one that is
    evicted. An entry that is alive goes only when that one is alive too, or is itself.
  */
  lemma RetiredGoFirst(c: Contents, start: nat, alive: set<Node>, maximum: nat, judge: Judge, size: nat, j: nat)
    requires start <= |c.probation| && j < |Plan(Choices(c, start), alive, maximum, judge, size, 0)|
    ensures var plan := Plan(Choices(c, start), alive, maximum, judge, size, 0);
      var left := Heavy(Rest(c.probation, First(plan, j)));
      left != [] && left[0] !in alive ==> plan[j] == left[0]
  {
    hide Plan, Heavy, Rest;
    var plan := Plan(Choices(c, start), alive, maximum, judge, size, 0);
    ChoicesAre(c, start);
    RetiredFirst(Choices(c, start), alive, maximum, judge, size, j);
    HeavyRest(c.probation, First(plan, j));
  }

  /** The queues the cursors have yet to enter. */
  ghost function Stage(victimQueue: Queue, candidateQueue: Queue): nat {
    (match victimQueue
     case InMainProbation => 2
     case InMainProtected => 1
     case InWindow => 0) + if candidateQueue == InMainProbation then 1 else 0
  }

  /** What lies ahead of the cursors. */
  ghost function Left(c: Contents, vq: Queue, vi: nat, cq: Queue, ci: nat): nat {
    (if vi <= |c.Get(vq)| then |c.Get(vq)| - vi else 0) + (if ci <= |c.Get(cq)| then |c.Get(cq)| - ci else 0)
  }

  /** Where the cursors stand, and that whatever the victim cursor has passed weighs nothing. */
  ghost predicate Cursors(c: Contents, vq: Queue, victim: Node?, vi: nat, cq: Queue, candidate: Node?, ci: nat) {
    && cq != InMainProtected
    && vi <= |c.Get(vq)| && victim == At(c.Get(vq), vi)
    && ci <= |c.Get(cq)| && candidate == At(c.Get(cq), ci)
    && (forall k :: 0 <= k < vi ==> c.Get(vq)[k].weight == 0)
    && (vq != InMainProbation ==> forall k :: 0 <= k < |c.probation| ==> c.probation[k].weight == 0)
    && (vq == InWindow ==> forall k :: 0 <= k < |c.protected| ==> c.protected[k].weight == 0)
  }

  lemma CursorsStart(c: Contents, start: nat)
    requires start <= |c.probation|
    ensures Cursors(c, InMainProbation, At(c.Get(InMainProbation), 0), 0, InMainProbation, At(c.probation, start), start)
  {
  }

  lemma CandidateEnters(c: Contents, vq: Queue, victim: Node?, vi: nat, cq: Queue, candidate: Node?, ci: nat)
    requires Cursors(c, vq, victim, vi, cq, candidate, ci)
    ensures Cursors(c, vq, victim, vi, InWindow, At(c.Get(InWindow), 0), 0)
  {
  }

  /** A victim cursor that has passed a whole queue enters the next one. */
  lemma VictimEnters(c: Contents, vq: Queue, victim: Node?, vi: nat, cq: Queue, candidate: Node?, ci: nat)
    requires Cursors(c, vq, victim, vi, cq, candidate, ci) && victim == null && vq != InWindow
    ensures var next := if vq == InMainProbation then InMainProtected else InWindow;
      Cursors(c, next, At(c.Get(next), 0), 0, cq, candidate, ci)
  {
    assert vi == |c.Get(vq)|;
  }

  lemma NothingLeft(c: Contents, vi: nat, cq: Queue, candidate: Node?, ci: nat)
    requires Cursors(c, InWindow, null, vi, cq, candidate, ci)
    ensures forall q, k :: 0 <= k < |c.Get(q)| ==> c.Get(q)[k].weight == 0
  {
    assert vi == |c.Get(InWindow)|;
    forall q, k | 0 <= k < |c.Get(q)| ensures c.Get(q)[k].weight == 0 {
      assert q == InMainProbation ==> c.Get(q) == c.probation;
      assert q == InMainProtected ==> c.Get(q) == c.protected;
    }
  }

  lemma CursorsSee(c: Contents, vq: Queue, victim: Node?, vi: nat, cq: Queue, candidate: Node?, ci: nat)
    requires Cursors(c, vq, victim, vi, cq, candidate, ci)
    ensures if victim == null then vi == |c.Get(vq)| else vi < |c.Get(vq)| && c.Get(vq)[vi] == victim
    ensures if candidate == null then ci == |c.Get(cq)| else ci < |c.Get(cq)| && c.Get(cq)[ci] == candidate
  {
  }

  /** The victim is evicted; a candidate behind it on the same queue slips forward. */
  lemma VictimEvicted(c: Contents, vq: Queue, victim: Node, vi: nat, cq: Queue, candidate: Node?, ci: nat)
    requires Cursors(c, vq, victim, vi, cq, candidate, ci) && (cq == vq ==> ci != vi)
    ensures Cursors(c.Set(vq, Without(c.Get(vq), vi)), vq, At(c.Get(vq), vi + 1), vi, cq, candidate, if cq == vq && ci > vi then ci - 1 else ci)
  {
    var l := c.Get(vq);
    AtWithout(l, vi, vi);
    AtWithout(l, vi, ci);
    GetSet(c, vq, Without(l, vi));
  }

  lemma CandidateEvicted(c: Contents, vq: Queue, victim: Node?, vi: nat, cq: Queue, candidate: Node, ci: nat)
    requires Cursors(c, vq, victim, vi, cq, candidate, ci) && candidate.weight > 0 && (cq == vq ==> ci != vi)
    ensures Cursors(c.Set(cq, Without(c.Get(cq), ci)), vq, victim, vi, cq, At(c.Get(cq), ci + 1), ci)
  {
    var l := c.Get(cq);
    AtWithout(l, ci, ci);
    AtWithout(l, ci, vi);
    GetSet(c, cq, Without(l, ci));
  }

  lemma BothEvicted(c: Contents, q: Queue, victim: Node, i: nat)
    requires Cursors(c, q, victim, i, q, victim, i)
    ensures var rest := Without(c.Get(q), i);
      Cursors(c.Set(q, rest), q, At(c.Get(q), i + 1), i, q, null, |rest|)
  {
    var l := c.Get(q);
    AtWithout(l, i, i);
    GetSet(c, q, Without(l, i));
  }

  lemma SameSpot(l: seq<Node>, i: nat, j: nat)
    requires NoDup(l) && i < |l| && j < |l| && l[i] == l[j]
    ensures i == j
  {
  }

  lemma AtWithout(l: seq<Node>, p: nat, k: nat)
    requires p < |l|
    ensures At(Without(l, p), k) == if k < p then At(l, k) else At(l, k + 1)
  {
  }

  lemma SizeWithout(c: Contents, q: Queue, p: nat)
    requires p < |c.Get(q)|
    ensures Size(c.Set(q, Without(c.Get(q), p))) == Size(c) - 1
  {
  }

  /** The evictions since are all that changed the books; each entry was on them and weighs something. */
  ghost predicate Gone(typed0: map<Node, Queue>, typed: map<Node, Queue>, evicted0: seq<Node>, evicted: seq<Node>) {
    && evicted0 <= evicted && NoDup(evicted[|evicted0|..])
    && typed == typed0 - (set n | n in evicted[|evicted0|..])
    && (forall n :: n in evicted[|evicted0|..] ==> n in typed0 && n.weight > 0)
  }

  lemma GoneNone(typed: map<Node, Queue>, evicted: seq<Node>)
    ensures Gone(typed, typed, evicted, evicted)
  {
    assert typed == typed - (set n | n in evicted[|evicted|..]);
  }

  lemma GoneNext(typed0: map<Node, Queue>, typed: map<Node, Queue>, evicted0: seq<Node>, evicted: seq<Node>, n: Node)
    requires Gone(typed0, typed, evicted0, evicted) && n in typed && n.weight > 0
    ensures Gone(typed0, typed - {n}, evicted0, evicted + [n])
  {
    var more := evicted[|evicted0|..];
    assert (evicted + [n])[|evicted0|..] == more + [n];
    assert typed - {n} == typed0 - (set m | m in more + [n]);
  }

  ghost function Kept(c: Contents, gone: set<Node>): Contents {
    Contents(Rest(c.window, gone), Rest(c.probation, gone), Rest(c.protected, gone))
  }

  /** The queues are those of before, in order, without what has been evicted since, which was linked then. */
  ghost predicate Remains(c0: Contents, c: Contents, evicted0: seq<Node>, evicted: seq<Node>) {
    && evicted0 <= evicted
    && c == Kept(c0, set n | n in evicted[|evicted0|..])
    && forall n :: n in evicted[|evicted0|..] ==> n in OnLists(c0)
  }

  lemma RemainsNone(c: Contents, evicted: seq<Node>)
    ensures Remains(c, c, evicted, evicted)
  {
    RestAll(c.window);
    RestAll(c.probation);
    RestAll(c.protected);
    assert (set n | n in evicted[|evicted|..]) == {};
  }

  lemma RemainsNext(c0: Contents, c: Contents, evicted0: seq<Node>, evicted: seq<Node>, q: Queue, p: nat)
    requires Remains(c0, c, evicted0, evicted) && p < |c.Get(q)|
    requires (forall r :: NoDup(c.Get(r))) && (forall r, s, n :: r != s && n in c.Get(r) ==> n !in c.Get(s))
    ensures Remains(c0, c.Set(q, Without(c.Get(q), p)), evicted0, evicted + [c.Get(q)[p]])
  {
    hide NoDup, Without, Rest;
    var n, gone := c.Get(q)[p], set m | m in evicted[|evicted0|..];
    assert (evicted + [n])[|evicted0|..] == evicted[|evicted0|..] + [n];
    assert (set m | m in evicted[|evicted0|..] + [n]) == gone + {n};
    KeptLess(c0, gone, q, p);
    KeptIn(c0, gone, q, n);
  }

  lemma KeptLess(c0: Contents, gone: set<Node>, q: Queue, p: nat)
    requires var c := Kept(c0, gone);
      && p < |c.Get(q)| && (forall r :: NoDup(c.Get(r))) && (forall r, s, n :: r != s && n in c.Get(r) ==> n !in c.Get(s))
    ensures var c := Kept(c0, gone);
      Kept(c0, gone + {c.Get(q)[p]}) == c.Set(q, Without(c.Get(q), p))
  {
    hide NoDup, Without, Rest;
    var c := Kept(c0, gone);
    var n, d := c.Get(q)[p], Kept(c0, gone + {c.Get(q)[p]});
    assert n in c.Get(q);
    KeptGet(c0, gone);
    KeptGet(c0, gone + {n});
    forall r | r != q ensures d.Get(r) == c.Get(r) {
      RestSame(c0.Get(r), gone, n);
    }
    RestLess(c0.Get(q), gone, p);
    assert d.window == d.Get(InWindow) && d.probation == d.Get(InMainProbation) && d.protected == d.Get(InMainProtected);
    assert c.window == c.Get(InWindow) && c.probation == c.Get(InMainProbation) && c.protected == c.Get(InMainProtected);
  }

  lemma KeptGet(c: Contents, gone: set<Node>)
    ensures forall q :: Kept(c, gone).Get(q) == Rest(c.Get(q), gone)
  {
  }

  lemma KeptIn(c: Contents, gone: set<Node>, q: Queue, n: Node)
    requires n in Kept(c, gone).Get(q)
    ensures n in OnLists(c)
  {
    KeptGet(c, gone);
    RestIn(c.Get(q), gone, n);
    InSome(c, n);
  }

  function Zeros(l: seq<Node>): seq<Node> {
    if l == [] then [] else Zeros(l[..|l| - 1]) + if l[|l| - 1].weight == 0 then [l[|l| - 1]] else []
  }

  /** The queues once the first k entries of the window have been looked at: those with weight went to probation, in order. */
  function Expelled(c: Contents, k: nat): Contents
    requires k <= |c.window|
  {
    c.(window := Zeros(c.window[..k]) + c.window[k..], probation := c.probation + Heavy(c.window[..k]))
  }

  lemma ExpelledNone(c: Contents)
    ensures Expelled(c, 0) == c
  {
    assert c.window[..0] == [];
  }

  lemma ExpelledAt(c: Contents, k: nat)
    requires k < |c.window|
    ensures var z, l := |Zeros(c.window[..k])|, Expelled(c, k).window;
      z < |l| && l[z] == c.window[k] && At(l, z + 1) == At(c.window, k + 1)
  {
  }

  lemma ExpelledNext(c: Contents, k: nat)
    requires k < |c.window| && NoDup(c.window)
    ensures var n, e := c.window[k], Expelled(c, k);
      Expelled(c, k + 1) == if n.weight == 0 then e else e.(window := Remove(e.window, n), probation := e.probation + [n])
  {
    hide Remove, NoDup;
    var n, z := c.window[k], Zeros(c.window[..k]);
    assert n !in c.window[..k] by { NotBefore(c.window, k); }
    assert c.window[..k + 1][..k] == c.window[..k];
    assert c.window[k..] == [n] + c.window[k + 1..];
    if n.weight != 0 {
      ZerosIn(c.window[..k]);
      assert n !in z;
      RemoveMiddle(z, n, c.window[k + 1..]);
      assert z + c.window[k..] == z + [n] + c.window[k + 1..];
    }
  }

  lemma NotBefore(l: seq<Node>, k: nat)
    requires k < |l| && NoDup(l)
    ensures l[k] !in l[..k]
  {
  }

  lemma {:induction false} ZerosIn(l: seq<Node>)
    ensures forall n :: n in Zeros(l) ==> n in l && n.weight == 0
    ensures forall n :: n in Heavy(l) ==> n in l && n.weight != 0
  {
    if l != [] {
      ZerosIn(l[..|l| - 1]);
    }
  }

  lemma {:induction false} RemoveMiddle(a: seq<Node>, x: Node, b: seq<Node>)
    requires x !in a
    ensures Remove(a + [x] + b, x) == a + b
  {
    if a == [] {
      assert a + [x] + b == [x] + b;
    } else {
      assert (a + [x] + b)[1..] == a[1..] + [x] + b;
      RemoveMiddle(a[1..], x, b);
    }
  }

  /** The list with n, if it is there, moved to the back. */
  function ToBack(l: seq<Node>, n: Node): seq<Node> {
    if n in l then Remove(l, n) + [n] else l
  }

  predicate Promoted(c: Contents, n: Node, q: Queue, weight: nat, protectedMaximum: nat) {
    q == InMainProbation && n in c.probation && weight <= protectedMaximum
  }

  /** The queues after a read of n of type q. */
  function Accessed(c: Contents, n: Node, q: Queue, weight: nat, protectedMaximum: nat): Contents {
    if Promoted(c, n, q, weight, protectedMaximum)
    then c.(probation := Remove(c.probation, n), protected := c.protected + [n])
    else c.Set(q, ToBack(c.Get(q), n))
  }

  /** The queues with n in the place of o. */
  function Substituted(c: Contents, n: Node, o: Node, q: Queue): Contents {
    c.Set(q, Replace(c.Get(q), o, n))
  }

  /** The queues after an update of n of type q: too heavy for the window it goes to the front, otherwise it counts as read. */
  function Refreshed(c: Contents, n: Node, q: Queue, windowMaximum: nat, protectedMaximum: nat): Contents {
    if q == InWindow && n.weight > windowMaximum
    then c.(window := if n in c.window then [n] + Remove(c.window, n) else c.window)
    else Accessed(c, n, q, n.weight, protectedMaximum)
  }

  /** The queues after an update: an entry too heavy for the cache is gone. */
  function Settled(c: Contents, n: Node, q: Queue, maximum: nat, windowMaximum: nat, protectedMaximum: nat): Contents {
    if n.weight > maximum then c.Set(q, Remove(c.Get(q), n)) else Refreshed(c, n, q, windowMaximum, protectedMaximum)
  }

  /**
    An update links n exactly if o was on its queue. If o was evicted before its replacement was
    processed, n is accounted for but no queue holds it.
  */
  lemma UpdateAfterEviction(c: Contents, n: Node, o: Node, q: Queue, maximum: nat, windowMaximum: nat, protectedMaximum: nat)
    requires n !in OnLists(c) && n.weight <= maximum
    ensures var d := Settled(Substituted(c, n, o, q), n, q, maximum, windowMaximum, protectedMaximum);
      (n in OnLists(d) <==> o in c.Get(q)) && (o !in c.Get(q) ==> d == c)
  {
    InSome(c, n);
    assert c.window == c.Get(InWindow) && c.probation == c.Get(InMainProbation);
    if o !in c.Get(q) {
      RemoveAbsent(c.Get(q), o, n);
      assert c.Set(q, c.Get(q)) == c;
    } else {
      var e := Substituted(c, n, o, q);
      ReplacedIn(c.Get(q), o, n);
      GetSet(c, q, Replace(c.Get(q), o, n));
      assert n in e.Get(q);
      var d := Refreshed(e, n, q, windowMaximum, protectedMaximum);
      hide Remove;
      AccessedKeeps(e, n, q, n.weight, protectedMaximum);
      InSome(d, n);
    }
  }

  lemma {:induction false} ReplacedIn(l: seq<Node>, o: Node, n: Node)
    requires o in l
    ensures n in Replace(l, o, n)
  {
    if l[0] != o {
      ReplacedIn(l[1..], o, n);
    }
  }

  /** A node on no queue stays on none while the policy moves and evicts others, and when it is read itself. */
  lemma StaysUnlinked(c: Contents, n: Node, q: Queue, protectedMaximum: nat)
    requires n !in OnLists(c)
    ensures Accessed(c, n, q, n.weight, protectedMaximum) == c
    ensures forall k :: 0 <= k <= |c.window| ==> n !in OnLists(Expelled(c, k)) && n !in OnLists(Shed(c, k))
    ensures forall k :: 0 <= k <= |c.protected| ==> n !in OnLists(Demoted(c, k))
    ensures forall p, d :: Recruits(c, p, d) ==> n !in OnLists(Recruited(c, p, d))
    ensures forall p :: 0 <= p < |c.Get(q)| ==> n !in OnLists(c.Set(q, Without(c.Get(q), p)))
    ensures forall d, evicted0, evicted :: Remains(c, d, evicted0, evicted) ==> n !in OnLists(d) && n !in evicted[|evicted0|..]
  {
    hide Accessed, Without, Rest;
    NotTouched(c, n, q, protectedMaximum);
    forall gone: set<Node> ensures n !in OnLists(Kept(c, gone)) {
      RestIn(c.window, gone, n);
      RestIn(c.probation, gone, n);
      RestIn(c.protected, gone, n);
    }
    forall k | 0 <= k <= |c.window| ensures n !in OnLists(Expelled(c, k)) {
      ZerosIn(c.window[..k]);
    }
  }

  lemma NotTouched(c: Contents, n: Node, q: Queue, protectedMaximum: nat)
    requires n !in OnLists(c)
    ensures Accessed(c, n, q, n.weight, protectedMaximum) == c
    ensures forall p :: 0 <= p < |c.Get(q)| ==> n !in OnLists(c.Set(q, Without(c.Get(q), p)))
  {
    InSome(c, n);
    assert c.window == c.Get(InWindow) && c.probation == c.Get(InMainProbation) && c.protected == c.Get(InMainProtected);
    assert c.Set(q, c.Get(q)) == c;
  }

  /** Nor does a read, an addition or an update of another entry link it: only a task that names it, or its expiry, gets rid of it. */
  lemma StaysUnlinkedByOthers(c: Contents, n: Node, m: Node, o: Node, q: Queue, maximum: nat, windowMaximum: nat, protectedMaximum: nat)
    requires n !in OnLists(c) && m != n
    ensures n !in OnLists(Accessed(c, m, q, m.weight, protectedMaximum))
    ensures n !in OnLists(c.(window := c.window + [m])) && n !in OnLists(c.(window := [m] + c.window))
    ensures n !in OnLists(Settled(Substituted(c, m, o, q), m, q, maximum, windowMaximum, protectedMaximum))
  {
    hide Remove, Replace;
    AccessedSubset(c, n, m, q, m.weight, protectedMaximum);
    var e := Substituted(c, m, o, q);
    assert n !in OnLists(e) by {
      InSome(c, n);
      InSome(e, n);
      ReplaceSubset(c.Get(q), o, m);
      GetSet(c, q, Replace(c.Get(q), o, m));
    }
    AccessedSubset(e, n, m, q, m.weight, protectedMaximum);
    RemoveSubset(e.Get(q), m);
    RemoveSubset(e.window, m);
    InSome(e, n);
    GetSet(e, q, Remove(e.Get(q), m));
    InSome(e.Set(q, Remove(e.Get(q), m)), n);
  }

  lemma AccessedSubset(c: Contents, n: Node, m: Node, q: Queue, weight: nat, protectedMaximum: nat)
    requires n !in OnLists(c) && m != n
    ensures n !in OnLists(Accessed(c, m, q, weight, protectedMaximum))
  {
    hide Remove;
    RemoveSubset(c.probation, m);
    RemoveSubset(c.Get(q), m);
    InSome(c, n);
    GetSet(c, q, ToBack(c.Get(q), m));
    InSome(Accessed(c, m, q, weight, protectedMaximum), n);
  }

  lemma {:induction false} RemoveSubset(l: seq<Node>, m: Node)
    ensures forall x :: x in Remove(l, m) ==> x in l
  {
    if l != [] && l[0] != m {
      RemoveSubset(l[1..], m);
    }
  }

  lemma {:induction false} ReplaceSubset(l: seq<Node>, o: Node, m: Node)
    ensures forall x :: x in Replace(l, o, m) ==> x in l || x == m
  {
    if l != [] && l[0] != o {
      ReplaceSubset(l[1..], o, m);
    }
  }

  /** An entry evicted between the write that replaces it and the task of that write: its replacement is alive, accounted for and on no queue. */
  method Forgotten() returns (p: Policy, n: Node)
    ensures p.Valid() && p.pending == 0 && n in p.typed && n.state == Alive && n.weight > 0 && !p.OnQueue(n)
  {
    hide Policy.Valid, Policy.Ledger, Policy.Overcounted, Linked.Valid, Linked.Represents, Settled, Substituted;
    p := new Policy();
    p.SetMaximumSize(10, 5, 3);
    var o := new Node(1, 0);
    n := new Node(1, 0);
    p.Add(o);
    p.EvictNode(o);
    var panics := p.Update(n, o);
  }

  // ---------- Weights that are never paid back ----------

  /** The grand total exceeds the weight of the accounted nodes. */
  ghost predicate Exceeds(size: nat, typed: map<Node, Queue>, excess: nat) {
    size == (Weigh(typed.Keys) + excess) % TWO_64
  }

  /** However nodes come and go afterwards the excess stays, to the point of an empty cache that is taken for a heavy one. */
  lemma ExcessStays(size: nat, typed: map<Node, Queue>, excess: nat, m: Node, q: Queue)
    requires Exceeds(size, typed, excess)
    ensures m !in typed ==> Exceeds(Plus(size, m.weight), typed[m := q], excess)
    ensures m in typed ==> Exceeds(Minus(size, m.weight), typed - {m}, excess)
    ensures typed == map[] && excess < TWO_64 ==> size == excess
  {
    if m in typed {
      WeighRemove(typed.Keys, m);
      assert (typed - {m}).Keys == typed.Keys - {m};
      hide Weigh, Minus;
      MinusMod(size, m.weight, Weigh(typed.Keys) + excess, Weigh((typed - {m}).Keys) + excess);
    } else {
      WeighAdd(typed.Keys, m);
      assert typed[m := q].Keys == typed.Keys + {m};
      hide Weigh, Plus;
      PlusMod(size, m.weight, Weigh(typed.Keys) + excess);
    }
  }

  lemma OvercountedExceeds(size: nat, w: nat, p: nat, typed: map<Node, Queue>, weight: nat)
    requires Balanced(Minus(size, weight), w, p, typed) && size < TWO_64
    ensures Exceeds(size, typed, weight)
  {
  }

  /** A small cache with two entries in its window. */
  method Pair() returns (p: Policy, a: Node, n: Node)
    ensures fresh(p) && fresh(p.window) && fresh(p.probation) && fresh(p.protected) && fresh({a, n}) && a != n
    ensures p.Valid() && p.pending == 0 && p.maximum == 10 && p.windowMaximum == 5
    ensures p.typed.Keys == {a, n} && p.Lists() == Contents([a, n], [], [])
    ensures a.weight == n.weight == 1 && a.queueType == n.queueType == InWindow
  {
    hide Policy.Valid, Policy.OnQueue, Weigh;
    p := new Policy();
    p.SetMaximumSize(10, 5, 3);
    a := new Node(1, 0);
    p.Add(a);
    n := new Node(1, 0);
    p.Add(n);
    assert p.typed.Keys == {a, n};
  }

  /** The second one updated by itself: it is dead, still counted, and its queue is no list any more. */
  method TornByItself() returns (p: Policy, n: Node)
    ensures n.state == Dead && n.weight > 0 && p.Overcounted(n) && !p.Ledger()
    ensures !p.window.Valid() && forall l :: !p.window.Represents(l)
  {
    hide Policy.Valid, Policy.Ledger, Policy.Overcounted, Linked.Valid, Linked.Represents, Settled, Substituted;
    var a;
    p, a, n := Pair();
    assert n == p.Lists().window[1];
    var panics := p.Update(n, n);
  }

  /** The first one updated by itself: the policy follows a tail that is not there. */
  method StuckByItself() returns (panics: bool)
    ensures panics
  {
    hide Policy.Valid, Policy.Ledger, Policy.Overcounted, Linked.Valid, Linked.Represents, Settled, Substituted;
    var p, n, m := Pair();
    panics := p.Update(n, n);
  }

  lemma AccessedKeeps(c: Contents, n: Node, q: Queue, weight: nat, protectedMaximum: nat)
    ensures var a := Accessed(c, n, q, weight, protectedMaximum);
      n in a.Get(if Promoted(c, n, q, weight, protectedMaximum) then InMainProtected else q) <==> n in c.Get(q)
  {
    GetSet(c, q, ToBack(c.Get(q), n));
  }

  /** An update of n by itself follows a missing tail: n is the first of several entries of its queue, and the update counts as a read. */
  ghost predicate Stuck(c: Contents, n: Node, q: Queue, maximum: nat, windowMaximum: nat, protectedMaximum: nat) {
    && |c.Get(q)| > 1 && c.Get(q)[0] == n && n.weight <= maximum
    && (q == InWindow ==> n.weight <= windowMaximum)
    && (q == InMainProbation ==> n.weight > protectedMaximum)
  }

  ghost function TypedAfter(typed: map<Node, Queue>, c: Contents, n: Node, protectedMaximum: nat): map<Node, Queue> {
    if n in typed && Promoted(c, n, typed[n], n.weight, protectedMaximum) then typed[n := InMainProtected] else typed
  }

  ghost predicate Typed(l: seq<Node>, q: Queue)
    reads l`queueType
  {
    forall k :: 0 <= k < |l| ==> l[k].queueType == q
  }

  lemma StillTyped(l: seq<Node>, shorter: seq<Node>, q: Queue)
    requires Typed(l, q) && forall m :: m in shorter ==> m in l
    ensures Typed(shorter, q)
  {
    forall k | 0 <= k < |shorter| ensures shorter[k].queueType == q {
      assert shorter[k] in l;
    }
  }
}
