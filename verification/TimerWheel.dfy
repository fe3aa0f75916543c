/**
  The hierarchical timer wheel: five levels of buckets, each a ring of nodes linked
  through the nodes themselves.
*/
module TimerWheel {
  import opened Arith
  import opened Nodes

  const LEVELS: nat := 5

  // ---------- Ticks and slots ----------

  function Buckets(level: nat): (b: nat)
    requires level < LEVELS
    ensures b > 0
  {
    if level <= 1 then 64 else if level == 2 then 32 else if level == 3 then 4 else 1
  }

  /** The span of one tick: the second, minute, hour and day rounded up to powers of two, and four such days. */
  function TickSize(level: nat): (size: nat)
    requires level < LEVELS
    ensures size > 0
  {
    if level == 0 then 0x4000_0000
    else if level == 1 then 0x10_0000_0000
    else if level == 2 then 0x400_0000_0000
    else if level == 3 then 0x8000_0000_0000
    else 0x2_0000_0000_0000
  }

  /** A second, rounded up to a power of two, in nanoseconds. */
  const SECOND: nat := 0x4000_0000

  /** The spans are the time units in nanoseconds, rounded up to the next power of two. */
  lemma SpansRoundUp()
    ensures SECOND == TickSize(0) == RoundUpPow2(1_000_000_000)
    ensures TickSize(1) == RoundUpPow2(60 * 1_000_000_000)
    ensures TickSize(2) == RoundUpPow2(60 * 60 * 1_000_000_000)
    ensures TickSize(3) == RoundUpPow2(24 * 60 * 60 * 1_000_000_000)
    ensures TickSize(4) == Buckets(3) * TickSize(3)
  {
    var k := 32;
    assert IsPow2(2) && IsPow2(4) && IsPow2(8) && IsPow2(16) && IsPow2(k);
    Pow2Times(k, k);
    Pow2Times(k, k * k);
    Pow2Times(k, k * k * k);
    Pow2Times(k, k * k * k * k);
    Pow2Times(k, k * k * k * k * k);
    Pow2Times(2, 0x2000_0000);
    Pow2Times(k, 0x4000_0000);
    Pow2Times(2, 0x8_0000_0000);
    Pow2Times(k, 0x10_0000_0000);
    Pow2Times(2, 0x200_0000_0000);
    Pow2Times(k, 0x400_0000_0000);
    RoundUpIs(1_000_000_000, TickSize(0));
    RoundUpIs(60 * 1_000_000_000, TickSize(1));
    RoundUpIs(60 * 60 * 1_000_000_000, TickSize(2));
    RoundUpIs(24 * 60 * 60 * 1_000_000_000, TickSize(3));
  }

  function Tick(level: nat, t: nat): nat
    requires level < LEVELS
  {
    t / TickSize(level)
  }

  datatype Slot = Slot(level: nat, index: nat)

  predicate SlotOk(s: Slot) {
    s.level < LEVELS && s.index < Buckets(s.level)
  }

  function Level(duration: nat): (level: nat)
    ensures level < LEVELS
  {
    if duration < TickSize(1) then 0
    else if duration < TickSize(2) then 1
    else if duration < TickSize(3) then 2
    else if duration < TickSize(4) then 3
    else 4
  }

  /** Where a deadline is filed at a given time; the duration is an unsigned difference. */
  function SlotFor(due: nat, time: nat): (s: Slot)
    requires due < TWO_64 && time < TWO_64
    ensures SlotOk(s)
  {
    var level := Level((due + TWO_64 - time) % TWO_64);
    Slot(level, Tick(level, due) % Buckets(level))
  }

  /** A deadline already in the past when it was filed waits on the last level. */
  predicate Late(slot: Slot, due: nat, time: nat) {
    slot.level == 4 && due < time
  }

  /** What is known at a given time about a deadline filed in a slot. */
  predicate Sound(slot: Slot, due: nat, time: nat) {
    && SlotOk(slot)
    && slot.index == Tick(slot.level, due) % Buckets(slot.level)
    && (slot.level == 0 ==> Tick(0, due) >= Tick(0, time))
    && (slot.level > 0 && !Late(slot, due, time) ==> Tick(slot.level, due) > Tick(slot.level, time))
  }

  /** The slot belongs to a tick that passes when time moves from prev to now. */
  ghost predicate Swept(slot: Slot, prev: nat, now: nat)
    requires SlotOk(slot)
  {
    Tick(slot.level, prev) < Tick(slot.level, now) && Hit(slot, Tick(slot.level, prev), Tick(slot.level, now) + 1)
  }

  /** One of the ticks from lo up to hi, hi excluded, falls on the slot. */
  ghost predicate Hit(slot: Slot, lo: int, hi: int)
    requires SlotOk(slot)
  {
    exists q :: lo <= q < hi && FallsOn(q, slot)
  }

  lemma HitNone(slot: Slot, lo: int)
    requires SlotOk(slot)
    ensures !Hit(slot, lo, lo)
  {
  }

  lemma HitNext(slot: Slot, lo: int, hi: int)
    requires SlotOk(slot) && lo <= hi
    ensures Hit(slot, lo, hi + 1) <==> Hit(slot, lo, hi) || FallsOn(hi, slot)
  {
  }

  predicate FallsOn(tick: int, slot: Slot)
    requires SlotOk(slot)
  {
    tick % Buckets(slot.level) == slot.index
  }

  lemma FilingSound(due: nat, time: nat)
    requires due < TWO_64 && time <= MAX_INT64
    ensures Sound(SlotFor(due, time), due, time)
    ensures Late(SlotFor(due, time), due, time) <==> due < time
  {
  }

  lemma UnsweptSound(slot: Slot, due: nat, prev: nat, now: nat)
    requires Sound(slot, due, prev) && prev <= now && !Swept(slot, prev, now)
    ensures Sound(slot, due, now)
    ensures Late(slot, due, prev) == Late(slot, due, now)
  {
    var tick := Tick(slot.level, due);
    assert FallsOn(tick, slot);
    if slot.level == 4 {
      assert FallsOn(Tick(4, now), slot);
    }
  }

  lemma TickMonotone(level: nat, a: nat, b: nat)
    requires level < LEVELS && a <= b
    ensures Tick(level, a) <= Tick(level, b)
  {
  }

  /** A coarse tick advances only when the finer ones do. */
  lemma {:induction false} FinerAdvances(fine: nat, coarse: nat, prev: nat, now: nat)
    requires fine <= coarse < LEVELS && prev <= now && Tick(coarse, prev) < Tick(coarse, now)
    ensures Tick(fine, prev) < Tick(fine, now)
  {
    if fine < coarse {
      var f, k, q := TickSize(coarse - 1), Buckets(coarse - 1), Tick(coarse, now);
      assert TickSize(coarse) == k * f;
      hide TickSize, Buckets;
      Crosses(k * f, prev, q);
      Crosses(k * f, now, q);
      assert q * (k * f) == (q * k) * f;
      Crosses(f, prev, q * k);
      Crosses(f, now, q * k);
      FinerAdvances(fine, coarse - 1, prev, now);
    }
  }

  /** Within the first second after any moment the finest tick advances. */
  lemma OneSecond(prev: nat, now: nat)
    ensures prev + SECOND <= now ==> Tick(0, prev) < Tick(0, now)
  {
    if prev + SECOND <= now {
      var q := Tick(0, now);
      Crosses(TickSize(0), now, q);
      Crosses(TickSize(0), now, q + 1);
      Crosses(TickSize(0), prev, q);
    }
  }

  lemma Crosses(size: nat, t: nat, q: nat)
    requires size > 0
    ensures t / size < q <==> t < q * size
  {
    var d, r := t / size, t % size;
    assert t == d * size + r;
    if d < q {
      MulGap(d, q, size);
    } else if q < d {
      MulGap(q, d, size);
    }
  }

  /** A deadline that has passed is swept exactly when the finest tick advanced, or the coarsest if it was filed late. */
  lemma PassedIsSwept(slot: Slot, due: nat, prev: nat, now: nat)
    requires Sound(slot, due, prev) && prev <= now && due < now
    ensures Swept(slot, prev, now) <==> Tick(0, prev) < Tick(0, now) && (Late(slot, due, prev) ==> Tick(4, prev) < Tick(4, now))
  {
    var level := slot.level;
    if Tick(level, prev) < Tick(level, now) {
      FinerAdvances(0, level, prev, now);
    }
    TickMonotone(level, due, now);
    var tick := Tick(level, due);
    hide Tick;
    if Late(slot, due, prev) {
      assert FallsOn(Tick(4, now), slot);
    } else {
      assert FallsOn(tick, slot);
    }
  }

  /** An entry filed two ticks after its deadline stays in the wheel for hours of later sweeps. */
  lemma LateEntryIsKept()
    ensures var due, added, now := TickSize(0), 3 * TickSize(0), TickSize(3);
      && due < added < now && Tick(0, added) < Tick(0, now)
      && !Swept(SlotFor(due, added), added, now)
  {
  }

  // ---------- Rings ----------

  /** Position k of the circle, the root standing on both sides of the nodes. */
  ghost function At(root: Node, l: seq<Node>, k: int): Node {
    if 0 <= k < |l| then l[k] else root
  }

  /** A bucket: the root and the nodes of l are linked in a circle, in both directions. */
  ghost predicate Ring(root: Node, l: seq<Node>)
    reads root`prevExp, root`nextExp, l`prevExp, l`nextExp
  {
    && root !in l && NoDup(l)
    && root.nextExp == At(root, l, 0)
    && root.prevExp == At(root, l, |l| - 1)
    && (forall k :: 0 <= k < |l| ==> l[k].nextExp == At(root, l, k + 1) && l[k].prevExp == At(root, l, k - 1))
  }

  lemma RingEnds(root: Node, l: seq<Node>)
    requires Ring(root, l)
    ensures root.prevExp != null && (root.prevExp == root || root.prevExp in l)
    ensures forall n :: n in l ==> n.prevExp != null && (n.prevExp == root || n.prevExp in l)
    ensures forall n :: n in l ==> n.nextExp != null && (n.nextExp == root || n.nextExp in l)
  {
  }

  function Target(link: Node?): set<Node> {
    if link == null then {} else {link}
  }

  /** Adds the node at the tail of the bucket. */
  method Link(root: Node, n: Node, ghost l: seq<Node>)
    requires Ring(root, l) && n != root && n !in l
    modifies root`prevExp, root`nextExp, Target(root.prevExp)`nextExp, n`prevExp, n`nextExp
    ensures Ring(root, l + [n])
  {
    hide Ring, NoDup, At;
    LinksOf(root, l);
    Ends(root, l, n);
    assert Linked(root, l, -1) && Linked(root, l, |l| - 1);
    n.prevExp := root.prevExp;
    n.nextExp := root;
    root.prevExp.nextExp := n;
    root.prevExp := n;
    ghost var longer := l + [n];
    forall a | -1 <= a < |l| - 1 ensures Linked(root, longer, a) {
      Before(root, l, n, a);
      assert old(Linked(root, l, a));
    }
    assert Linked(root, longer, |l| - 1) && Linked(root, longer, |l|);
    RingOf(root, longer);
  }

  /** Where the links of a circle and of one with n added at the tail differ. */
  lemma Ends(root: Node, l: seq<Node>, n: Node)
    requires root !in l && NoDup(l) && n != root && n !in l
    ensures At(root, l, -1) == root && At(root, l, |l|) == root && At(root, l, |l| - 1) != n
    ensures root !in l + [n] && NoDup(l + [n])
    ensures At(root, l + [n], |l|) == n && At(root, l + [n], |l| + 1) == root && At(root, l + [n], |l| - 1) == At(root, l, |l| - 1)
  {
  }

  lemma Before(root: Node, l: seq<Node>, n: Node, a: int)
    requires root !in l && NoDup(l) && n != root && n !in l && -1 <= a < |l| - 1
    ensures At(root, l + [n], a) == At(root, l, a) && At(root, l + [n], a + 1) == At(root, l, a + 1)
    ensures At(root, l, a) != n && At(root, l, a + 1) != n && At(root, l, a) != At(root, l, |l| - 1) && At(root, l, a + 1) != root
  {
  }

  /** Takes the node out of its bucket, if it is in one. */
  method Unlink(n: Node, ghost root: Node, ghost l: seq<Node>, ghost p: nat)
    requires n.nextExp != null ==> Ring(root, l) && p < |l| && l[p] == n
    modifies Target(n.nextExp)`prevExp, (if n.nextExp == null then {} else Target(n.prevExp))`nextExp
    ensures old(n.nextExp) != null ==> Ring(root, Without(l, p))
  {
    hide Ring, NoDup, Without, At;
    var next := n.nextExp;
    if next != null {
      LinksOf(root, l);
      Gap(root, l, p);
      assert Linked(root, l, p - 1) && Linked(root, l, p);
      var prev := n.prevExp;
      next.prevExp := prev;
      prev.nextExp := next;
      ghost var rest := Without(l, p);
      WithoutNoDup(l, p);
      assert Linked(root, rest, p - 1);
      forall a | -1 <= a < |rest| && a != p - 1 ensures Linked(root, rest, a) {
        Elsewhere(root, l, p, a);
        assert old(Linked(root, l, if a < p then a else a + 1));
      }
      RingOf(root, rest);
    }
  }

  /** Leaving out position p keeps every link of the circle but the one across the gap. */
  lemma Elsewhere(root: Node, l: seq<Node>, p: nat, a: int)
    requires root !in l && NoDup(l) && p < |l| && -1 <= a < |l| - 1 && a != p - 1
    ensures var o, rest := if a < p then a else a + 1, Without(l, p);
      && -1 <= o < |l|
      && At(root, rest, a) == At(root, l, o) && At(root, rest, a + 1) == At(root, l, o + 1)
      && At(root, l, o) != At(root, l, p - 1) && At(root, l, o + 1) != At(root, l, p + 1)
  {
    var o := if a < p then a else a + 1;
    var rest := Without(l, p);
    assert At(root, rest, a) == At(root, l, o);
    assert At(root, rest, a + 1) == At(root, l, o + 1);
  }

  lemma Gap(root: Node, l: seq<Node>, p: nat)
    requires root !in l && p < |l|
    ensures At(root, l, p) == l[p] && root !in Without(l, p)
    ensures At(root, Without(l, p), p - 1) == At(root, l, p - 1) && At(root, Without(l, p), p) == At(root, l, p + 1)
  {
  }

  ghost predicate Linked(root: Node, l: seq<Node>, a: int)
    reads root`prevExp, root`nextExp, l`prevExp, l`nextExp
  {
    At(root, l, a).nextExp == At(root, l, a + 1) && At(root, l, a + 1).prevExp == At(root, l, a)
  }

  /** Circles seen link by link: the root is position -1. */
  lemma LinksOf(root: Node, l: seq<Node>)
    requires Ring(root, l)
    ensures root !in l && NoDup(l)
    ensures forall a :: -1 <= a < |l| ==> Linked(root, l, a)
  {
    forall a | -1 <= a < |l| ensures Linked(root, l, a) {
      assert a >= 0 ==> At(root, l, a) == l[a];
      assert a + 1 < |l| ==> At(root, l, a + 1) == l[a + 1];
    }
  }

  lemma RingOf(root: Node, l: seq<Node>)
    requires root !in l && NoDup(l)
    requires forall a :: -1 <= a < |l| ==> Linked(root, l, a)
    ensures Ring(root, l)
  {
    assert Linked(root, l, -1) && Linked(root, l, |l| - 1);
    forall k | 0 <= k < |l| ensures l[k].nextExp == At(root, l, k + 1) && l[k].prevExp == At(root, l, k - 1) {
      assert Linked(root, l, k) && Linked(root, l, k - 1);
    }
  }

  /** A scheduled node: the root of its bucket and the deadline it was filed under. */
  datatype Filing = Filing(root: Node, due: nat)

  /** A scheduled node is on the list it is filed under, and on no other. */
  ghost predicate Tidy(roots: set<Node>, lists: map<Node, seq<Node>>, filed: map<Node, Filing>) {
    && lists.Keys == roots
    && filed.Keys !! roots
    && (forall n :: n in filed ==> filed[n].root in lists && n in lists[filed[n].root])
    && (forall r, n :: r in lists && n in lists[r] ==> n in filed && filed[n].root == r)
  }

  lemma Apart(roots: set<Node>, lists: map<Node, seq<Node>>, filed: map<Node, Filing>)
    requires Tidy(roots, lists, filed)
    ensures lists.Keys == roots
    ensures forall r, k :: r in lists && 0 <= k < |lists[r]| ==>
      lists[r][k] in filed && filed[lists[r][k]].root == r && lists[r][k] !in roots
  {
  }

  lemma TidyAdd(roots: set<Node>, lists: map<Node, seq<Node>>, filed: map<Node, Filing>, n: Node, f: Filing)
    requires Tidy(roots, lists, filed) && n !in filed && n !in roots && f.root in roots
    ensures Tidy(roots, lists[f.root := lists[f.root] + [n]], filed[n := f])
  {
  }

  lemma TidyRemove(roots: set<Node>, lists: map<Node, seq<Node>>, filed: map<Node, Filing>, n: Node, p: nat)
    requires Tidy(roots, lists, filed) && n in filed
    requires var l := lists[filed[n].root]; NoDup(l) && p < |l| && l[p] == n
    ensures var root := filed[n].root; Tidy(roots, lists[root := Without(lists[root], p)], filed - {n})
  {
    WithoutNoDup(lists[filed[n].root], p);
  }

  lemma TidyClear(roots: set<Node>, lists: map<Node, seq<Node>>, filed: map<Node, Filing>, root: Node)
    requires Tidy(roots, lists, filed) && root in roots
    ensures Tidy(roots, lists[root := []], filed - (set n | n in lists[root]))
  {
    var rest := filed - (set n | n in lists[root]);
    forall n | n in rest ensures filed[n].root != root {
      assert n in filed && n !in lists[root];
    }
    forall r, n | r in lists && r != root && n in lists[r] ensures n in rest {
      assert filed[n].root == r;
      if filed[n].root == root {
        assert false;
      }
    }
  }

  /** The levels before i are complete, level i has its first roots. */
  ghost predicate Laid(w: seq<seq<Node>>, level: seq<Node>, s: map<Node, Slot>, i: nat)
    requires i <= LEVELS
  {
    && |w| == i && (forall a :: 0 <= a < i ==> |w[a]| == Buckets(a))
    && (i == LEVELS ==> level == []) && (i < LEVELS ==> |level| <= Buckets(i))
    && (forall a, b :: 0 <= a < i && 0 <= b < |w[a]| ==> w[a][b] in s && s[w[a][b]] == Slot(a, b))
    && (forall b :: 0 <= b < |level| ==> level[b] in s && s[level[b]] == Slot(i, b))
    && (forall r :: r in s ==> SlotOk(s[r]) && s[r].level <= i)
    && (forall r :: r in s && s[r].level < i ==> w[s[r].level][s[r].index] == r)
    && (forall r :: r in s && s[r].level == i ==> s[r].index < |level| && level[s[r].index] == r)
  }

  lemma LaidNone()
    ensures Laid([], [], map[], 0)
  {
  }

  lemma LaidAll(w: seq<seq<Node>>, s: map<Node, Slot>)
    requires Laid(w, [], s, LEVELS)
    ensures |w| == LEVELS && forall i :: 0 <= i < LEVELS ==> |w[i]| == Buckets(i)
    ensures forall i, j :: 0 <= i < LEVELS && 0 <= j < |w[i]| ==> w[i][j] in s && s[w[i][j]] == Slot(i, j)
    ensures forall r :: r in s ==> SlotOk(s[r]) && w[s[r].level][s[r].index] == r
  {
  }

  lemma LaidNext(w: seq<seq<Node>>, level: seq<Node>, s: map<Node, Slot>, i: nat, r: Node)
    requires i < LEVELS && Laid(w, level, s, i) && |level| < Buckets(i) && r !in s
    ensures Laid(w, level + [r], s[r := Slot(i, |level|)], i)
  {
  }

  lemma LaidLevel(w: seq<seq<Node>>, level: seq<Node>, s: map<Node, Slot>, i: nat)
    requires i < LEVELS && Laid(w, level, s, i) && |level| == Buckets(i)
    ensures Laid(w + [level], [], s, i + 1)
  {
  }

  class Wheel {
    const wheel: seq<seq<Node>>
    var time: nat

    /** The slot of each root, the nodes of each bucket in order, and what is scheduled. */
    ghost const slots: map<Node, Slot>
    ghost var lists: map<Node, seq<Node>>
    ghost var filed: map<Node, Filing>

    ghost predicate Geometry() {
      && |wheel| == LEVELS
      && (forall i :: 0 <= i < LEVELS ==> |wheel[i]| == Buckets(i))
      && (forall i, j :: 0 <= i < LEVELS && 0 <= j < |wheel[i]| ==> wheel[i][j] in slots && slots[wheel[i][j]] == Slot(i, j))
      && (forall r :: r in slots ==> SlotOk(slots[r]) && wheel[slots[r].level][slots[r].index] == r)
    }

    ghost function RootAt(slot: Slot): (r: Node)
      requires Geometry() && SlotOk(slot)
      ensures r in slots && slots[r] == slot
    {
      wheel[slot.level][slot.index]
    }

    /** Every bucket is a ring, and a scheduled node is on the one ring it is filed under. */
    ghost predicate Structure()
      reads `lists, `filed, slots.Keys`prevExp, slots.Keys`nextExp, filed.Keys`prevExp, filed.Keys`nextExp
    {
      && Geometry() && Tidy(slots.Keys, lists, filed)
      && (forall r :: r in lists ==> Ring(r, lists[r]))
    }

    ghost predicate Valid()
      reads this, slots.Keys`prevExp, slots.Keys`nextExp, filed.Keys`prevExp, filed.Keys`nextExp
    {
      && Structure() && time <= MAX_INT64
      && (forall n :: n in filed ==> Sound(slots[filed[n].root], filed[n].due, time))
    }

    constructor ()
      ensures Valid() && time == 0 && filed == map[] && fresh(slots.Keys)
    {
      hide Laid;
      LaidNone();
      var w: seq<seq<Node>> := [];
      ghost var s: map<Node, Slot> := map[];
      var i := 0;
      while i < LEVELS
        invariant i <= LEVELS && Laid(w, [], s, i)
        invariant forall r :: r in s ==> fresh(r) && r.prevExp == r && r.nextExp == r
      {
        var level: seq<Node> := [];
        while |level| < Buckets(i)
          invariant |level| <= Buckets(i) && Laid(w, level, s, i)
          invariant forall r :: r in s ==> fresh(r) && r.prevExp == r && r.nextExp == r
        {
          var fn := new Node(1, MAX_INT64);
          fn.prevExp := fn;
          fn.nextExp := fn;
          LaidNext(w, level, s, i, fn);
          s := s[fn := Slot(i, |level|)];
          level := level + [fn];
        }
        LaidLevel(w, level, s, i);
        w := w + [level];
        i := i + 1;
      }
      LaidAll(w, s);
      wheel, slots := w, s;
      time := 0;
      lists := map r | r in s :: [];
      filed := map[];
    }

    /** The root of the bucket a deadline goes to. */
    method FindBucket(expiration: nat) returns (root: Node)
      requires Geometry() && expiration < TWO_64 && time <= MAX_INT64
      ensures root == RootAt(SlotFor(expiration, time))
    {
      var duration := (expiration + TWO_64 - time) % TWO_64;
      var length := |wheel| - 1;
      var i := 0;
      while i < length
        invariant 0 <= i <= 4
        invariant Level(duration) >= i
      {
        if duration < TickSize(i + 1) {
          var ticks := Tick(i, expiration);
          BucketsMask(i, ticks);
          var index := And(ticks, Buckets(i) - 1);
          return wheel[i][index];
        }
        i := i + 1;
      }
      return wheel[length][0];
    }

    /** Schedules the node. */
    method Add(n: Node)
      requires Valid() && n !in filed && n !in slots
      modifies `lists, `filed, slots.Keys`prevExp, slots.Keys`nextExp, filed.Keys`prevExp, filed.Keys`nextExp, n`prevExp, n`nextExp
      ensures Valid()
      ensures filed == old(filed)[n := FilingFor(Unsigned(n.expiresAt), time)]
    {
      FilingSound(Unsigned(n.expiresAt), time);
      Schedule(n);
    }

    method Schedule(n: Node)
      requires Structure() && time <= MAX_INT64 && n !in filed && n !in slots
      modifies `lists, `filed, slots.Keys`prevExp, slots.Keys`nextExp, filed.Keys`prevExp, filed.Keys`nextExp, n`prevExp, n`nextExp
      ensures Structure()
      ensures filed == old(filed)[n := FilingFor(Unsigned(n.expiresAt), time)]
      ensures var root := filed[n].root; lists == old(lists)[root := old(lists[root]) + [n]]
    {
      hide Ring, Tidy, Geometry, RootAt, SlotFor;
      var root := FindBucket(Unsigned(n.expiresAt));
      Apart(slots.Keys, lists, filed);
      RingEnds(root, lists[root]);
      TidyAdd(slots.Keys, lists, filed, n, Filing(root, Unsigned(n.expiresAt)));
      Link(root, n, lists[root]);
      forall r | r in lists && r != root ensures Ring(r, lists[r]) {
        ghost var l := lists[r];
        assert forall k :: 0 <= k < |l| ==> l[k].prevExp == old(l[k].prevExp) && l[k].nextExp == old(l[k].nextExp);
        assert old(Ring(r, l));
      }
      filed := filed[n := Filing(root, Unsigned(n.expiresAt))];
      lists := lists[root := lists[root] + [n]];
    }

    /** Takes the node out of the wheel, if it is scheduled. */
    method Delete(n: Node)
      requires Valid() && n !in slots && (n in filed || n.nextExp == null)
      modifies `lists, `filed, slots.Keys`prevExp, slots.Keys`nextExp, filed.Keys`prevExp, filed.Keys`nextExp, n`prevExp, n`nextExp
      ensures Valid() && filed == old(filed) - {n}
      ensures n.prevExp == null && n.nextExp == null
    {
      hide Structure, Ring, Sound;
      assert n in filed ==> n.nextExp != null by { ScheduledLinked(n); }
      if n.nextExp != null {
        TakeOff(n);
      }
      n.prevExp := null;
      n.nextExp := null;
      assert n !in old(filed) ==> old(filed) - {n} == filed;
    }

    lemma ScheduledLinked(n: Node)
      requires Structure()
      ensures n in filed ==> n.nextExp != null
    {
      hide Ring, Geometry;
      if n in filed {
        var root, l, p := Position(n);
        RingEnds(root, l);
      }
    }

    /** Unlinks a scheduled node from its bucket. */
    method TakeOff(n: Node)
      requires Structure() && n !in slots && n in filed
      modifies `lists, `filed, slots.Keys`prevExp, slots.Keys`nextExp, filed.Keys`prevExp, filed.Keys`nextExp
      ensures Structure() && filed == old(filed) - {n}
    {
      hide Ring, Tidy, Geometry, NoDup, Without;
      Apart(slots.Keys, lists, filed);
      ghost var root, l, p := Position(n);
      RingEnds(root, l);
      WithoutNoDup(l, p);
      TidyRemove(slots.Keys, lists, filed, n, p);
      Unlink(n, root, l, p);
      lists := lists[root := Without(l, p)];
      filed := filed - {n};
      forall r | r in lists && r != root ensures Ring(r, lists[r]) {
        ghost var m := lists[r];
        assert forall k :: 0 <= k < |m| ==> m[k].prevExp == old(m[k].prevExp) && m[k].nextExp == old(m[k].nextExp);
        assert old(Ring(r, m));
      }
    }

    lemma Position(n: Node) returns (root: Node, l: seq<Node>, p: nat)
      requires Structure() && n in filed
      ensures root == filed[n].root && root in lists && l == lists[root] && p < |l| && l[p] == n && NoDup(l) && Ring(root, l)
    {
      root := filed[n].root;
      l := lists[root];
      p :| p < |l| && l[p] == n;
    }

    /** What a deadline is filed under at a given time. */
    ghost function FilingFor(due: nat, now: nat): Filing
      requires Geometry() && due < TWO_64 && now <= MAX_INT64
    {
      Filing(RootAt(SlotFor(due, now)), due)
    }

    /** The bucket's entries whose deadline has passed are gone; the others are filed anew. */
    ghost predicate Refiled(l: seq<Node>, before: map<Node, Filing>, after: map<Node, Filing>)
      requires Geometry() && time <= MAX_INT64
      reads `time, l`expiresAt
    {
      && after.Keys <= before.Keys
      && (forall n :: n in before ==> (n in after <==> !(n in l && Unsigned(n.expiresAt) < time)))
      && (forall n :: n in after ==> after[n] == if n in l then FilingFor(Unsigned(n.expiresAt), time) else before[n])
    }

    /** Handed over means out of the wheel, with no links left. */
    ghost predicate Released(expired: seq<Node>)
      reads `filed, expired`prevExp, expired`nextExp
    {
      forall n :: n in expired ==> n !in slots && n !in filed && n.prevExp == null && n.nextExp == null
    }

    /** An entry taken off its bucket is handed over if its deadline has passed, and scheduled again otherwise. */
    method Settle(n: Node, expired0: seq<Node>) returns (expired: seq<Node>)
      requires Structure() && time <= MAX_INT64 && n !in filed && n !in slots
      requires Released(expired0) && n !in expired0
      modifies `lists, `filed, slots.Keys`prevExp, slots.Keys`nextExp, filed.Keys`prevExp, filed.Keys`nextExp, n`prevExp, n`nextExp
      ensures Structure() && Released(expired)
      ensures Unsigned(n.expiresAt) < time ==>
        expired == expired0 + [n] && filed == old(filed)
      ensures Unsigned(n.expiresAt) >= time ==>
        expired == expired0 && filed == old(filed)[n := FilingFor(Unsigned(n.expiresAt), time)]
    {
      hide Ring, Tidy, Geometry, FilingFor;
      n.prevExp := null;
      n.nextExp := null;
      Apart(slots.Keys, lists, filed);
      forall r | r in lists ensures Ring(r, lists[r]) {
        ghost var m := lists[r];
        assert forall k :: 0 <= k < |m| ==> m[k].prevExp == old(m[k].prevExp) && m[k].nextExp == old(m[k].nextExp);
        assert old(Ring(r, m));
      }
      if Unsigned(n.expiresAt) < time {
        expired := expired0 + [n];
      } else {
        Schedule(n);
        expired := expired0;
      }
    }

    lemma NothingReleased()
      ensures Released([]) && NoDup<Node>([])
    {
    }

    /** Takes all entries off a bucket. */
    method Detach(root: Node, ghost expired: seq<Node>) returns (n: Node)
      requires Structure() && root in slots && Released(expired)
      modifies `lists, `filed, root`prevExp, root`nextExp
      ensures Structure() && Released(expired)
      ensures n == At(root, old(lists[root]), 0)
      ensures filed == old(filed) - (set m | m in old(lists[root]))
    {
      hide Ring, Tidy, Geometry, NoDup, At;
      Apart(slots.Keys, lists, filed);
      Detached(root, lists[root]);
      TidyClear(slots.Keys, lists, filed, root);
      n := root.nextExp;
      root.prevExp := root;
      root.nextExp := root;
      EmptyRing(root);
      forall r | r in lists && r != root ensures Ring(r, lists[r]) {
        ghost var m := lists[r];
        assert forall k :: 0 <= k < |m| ==> m[k].prevExp == old(m[k].prevExp) && m[k].nextExp == old(m[k].nextExp);
        assert old(Ring(r, m));
      }
      filed := filed - (set m | m in lists[root]);
      lists := lists[root := []];
    }

    /** Empties one bucket: hands over what has expired and files the rest again. */
    method SweepBucket(root: Node, expired0: seq<Node>) returns (expired: seq<Node>)
      requires Structure() && time <= MAX_INT64 && root in slots && Released(expired0) && NoDup(expired0)
      modifies `lists, `filed, slots.Keys`prevExp, slots.Keys`nextExp, filed.Keys`prevExp, filed.Keys`nextExp
      ensures Structure() && Released(expired) && NoDup(expired)
      ensures Refiled(old(lists[root]), old(filed), filed)
      ensures forall n :: n in expired <==> n in expired0 || (n in old(lists[root]) && Unsigned(n.expiresAt) < time)
    {
      hide Structure, FilingFor, Geometry, Ring, Refiled, At, NoDup, Released, Sweeping;
      InBucket(root);
      ghost var before, l := filed, lists[root];
      SweepingStart(l, filed, expired0);
      AtEnd(root, l, 0);
      expired := expired0;
      var n := Detach(root, expired0);
      ghost var k := 0;
      while n != root
        invariant k <= |l| && n == At(root, l, k)
        invariant Structure() && Released(expired) && filed.Keys <= before.Keys
        invariant Sweeping(l, k, before, filed, expired0, expired)
        invariant forall j :: k <= j < |l| ==> l[j] !in filed && l[j].nextExp == At(root, l, j + 1)
        decreases |l| - k
      {
        AtEnd(root, l, k);
        OthersDiffer(l, k);
        var next := n.nextExp;
        ghost var was, wasExpired := filed, expired;
        ToDo(l, k, before, filed, expired0, expired);
        expired := Settle(n, expired);
        SweepingNext(l, k, before, was, filed, expired0, wasExpired, expired);
        n := next;
        k := k + 1;
      }
      AtEnd(root, l, k);
      SweepingEnd(l, before, filed, expired0, expired);
    }

    /** The first k entries of the detached list l have been settled. */
    ghost predicate Sweeping(l: seq<Node>, k: nat, before: map<Node, Filing>, after: map<Node, Filing>,
                             expired0: seq<Node>, expired: seq<Node>)
      requires Geometry() && time <= MAX_INT64 && k <= |l|
      reads `time, l`expiresAt
    {
      && NoDup(expired)
      && (forall j :: k <= j < |l| ==> l[j] !in after && l[j] !in expired)
      && (forall m :: m in before && m !in l ==> m in after && after[m] == before[m])
      && (forall j :: 0 <= j < k ==> (l[j] in after <==> Unsigned(l[j].expiresAt) >= time))
      && (forall j :: 0 <= j < k && l[j] in after ==> after[l[j]] == FilingFor(Unsigned(l[j].expiresAt), time))
      && (forall j :: 0 <= j < k ==> (l[j] in expired <==> Unsigned(l[j].expiresAt) < time))
      && (forall m :: m in expired0 ==> m in expired)
      && (forall m :: m in expired ==> m in expired0 || m in l)
    }

    lemma SweepingStart(l: seq<Node>, before: map<Node, Filing>, expired0: seq<Node>)
      requires Geometry() && time <= MAX_INT64
      requires Released(expired0) && NoDup(expired0) && before == filed && forall j :: 0 <= j < |l| ==> l[j] in filed
      ensures Sweeping(l, 0, before, before - (set m | m in l), expired0, expired0)
    {
    }

    lemma ToDo(l: seq<Node>, k: nat, before: map<Node, Filing>, after: map<Node, Filing>,
               expired0: seq<Node>, expired: seq<Node>)
      requires Geometry() && time <= MAX_INT64 && k < |l| && Sweeping(l, k, before, after, expired0, expired)
      ensures l[k] !in after && l[k] !in expired
    {
    }

    lemma SweepingNext(l: seq<Node>, k: nat, before: map<Node, Filing>, was: map<Node, Filing>, after: map<Node, Filing>,
                       expired0: seq<Node>, wasExpired: seq<Node>, expired: seq<Node>)
      requires Geometry() && time <= MAX_INT64 && k < |l| && NoDup(l)
      requires Sweeping(l, k, before, was, expired0, wasExpired)
      requires Unsigned(l[k].expiresAt) < time ==> expired == wasExpired + [l[k]] && after == was
      requires Unsigned(l[k].expiresAt) >= time ==>
        expired == wasExpired && after == was[l[k] := FilingFor(Unsigned(l[k].expiresAt), time)]
      ensures Sweeping(l, k + 1, before, after, expired0, expired)
    {
      hide FilingFor, Geometry;
      OthersDiffer(l, k);
    }

    lemma SweepingEnd(l: seq<Node>, before: map<Node, Filing>, after: map<Node, Filing>,
                      expired0: seq<Node>, expired: seq<Node>)
      requires Geometry() && time <= MAX_INT64
      requires Sweeping(l, |l|, before, after, expired0, expired)
      requires after.Keys <= before.Keys && forall j :: 0 <= j < |l| ==> l[j] in before
      ensures NoDup(expired) && Refiled(l, before, after)
      ensures forall n :: n in expired <==> n in expired0 || (n in l && Unsigned(n.expiresAt) < time)
    {
      hide FilingFor, Geometry, NoDup;
    }

    lemma InBucket(root: Node)
      requires Structure() && root in slots
      ensures Geometry() && root in lists && root !in lists[root]
      ensures var l := lists[root];
        && (forall j :: 0 <= j < |l| ==> l[j] in filed && l[j] !in slots && l[j].nextExp == At(root, l, j + 1))
        && NoDup(l)
    {
      Apart(slots.Keys, lists, filed);
      Detached(root, lists[root]);
    }

    /**
      How far a sweep that started with filed0 has come: the entries of the buckets in `done`
      are handed over if their deadline has passed and filed anew otherwise.
    */
    ghost predicate Progress(filed0: map<Node, Filing>, filed: map<Node, Filing>, expired: seq<Node>, done: set<Node>)
      requires Geometry() && time <= MAX_INT64
      reads `time, filed0.Keys`expiresAt
    {
      && filed.Keys == filed0.Keys - (set n | n in expired)
      && (forall n :: n in expired ==> n in filed0)
      && (forall n :: n in filed0 ==> (n in expired <==> filed0[n].root in done && Unsigned(n.expiresAt) < time))
      && (forall n :: n in filed ==>
            filed[n] == if filed0[n].root in done then FilingFor(Unsigned(n.expiresAt), time) else filed0[n])
    }

    lemma ProgressStart(filed0: map<Node, Filing>)
      requires Geometry() && time <= MAX_INT64
      ensures Progress(filed0, filed0, [], {})
    {
    }

    lemma ProgressStep(filed0: map<Node, Filing>, before: map<Node, Filing>, after: map<Node, Filing>,
                       expired0: seq<Node>, expired: seq<Node>, done: set<Node>, root: Node, l: seq<Node>)
      requires Geometry() && time <= MAX_INT64
      requires Progress(filed0, before, expired0, done)
      requires forall n :: n in l <==> n in before && before[n].root == root
      requires Refiled(l, before, after)
      requires forall n :: n in expired <==> n in expired0 || (n in l && Unsigned(n.expiresAt) < time)
      ensures Progress(filed0, after, expired, done + {root})
    {
      hide FilingFor, Geometry;
      forall n | n in filed0 ensures n in expired <==> filed0[n].root in done + {root} && Unsigned(n.expiresAt) < time {
      }
      forall n | n in after
        ensures after[n] == if filed0[n].root in done + {root} then FilingFor(Unsigned(n.expiresAt), time) else filed0[n]
      {
        assert n in before;
      }
      assert after.Keys == filed0.Keys - (set n | n in expired);
    }

    /** Sweeps the buckets of one level for the ticks from prevTicks to prevTicks + delta. */
    method DeleteExpiredFromBucket(index: nat, prevTicks: nat, delta: nat, expired0: seq<Node>,
                                   ghost filed0: map<Node, Filing>, ghost done0: set<Node>)
      returns (expired: seq<Node>, ghost done: set<Node>)
      requires Structure() && time <= MAX_INT64 && index < LEVELS && delta > 0
      requires Progress(filed0, filed, expired0, done0) && Released(expired0) && NoDup(expired0)
      modifies `lists, `filed, slots.Keys`prevExp, slots.Keys`nextExp, filed.Keys`prevExp, filed.Keys`nextExp
      ensures Structure() && Progress(filed0, filed, expired, done) && Released(expired) && NoDup(expired)
      ensures done <= done0 + slots.Keys && filed.Keys <= old(filed.Keys)
      ensures forall r :: r in slots ==>
        (r in done <==> r in done0 || (slots[r].level == index && Hit(slots[r], prevTicks, prevTicks + delta + 1)))
    {
      hide Structure, Ring, Progress, Geometry, Released, NoDup, Hit, And;
      assert |wheel| == LEVELS && |wheel[index]| == Buckets(index) && Geometry() by { InSlots(); }
      var mask := Buckets(index) - 1;
      var steps := Min(delta + 1, Buckets(index));
      var start := And(prevTicks, mask);
      BucketsMask(index, prevTicks);
      var end := start + steps;
      var timerWheel := wheel[index];
      expired, done := expired0, done0;
      var i := start;
      NoHits(start);
      while i < end
        invariant start <= i <= end
        invariant Structure() && filed.Keys <= old(filed.Keys)
        invariant Progress(filed0, filed, expired, done) && Released(expired) && NoDup(expired) && done <= done0 + slots.Keys
        invariant forall r :: r in slots ==>
          (r in done <==> r in done0 || (slots[r].level == index && Hit(slots[r], start, i)))
      {
        BucketsMask(index, i);
        var root := timerWheel[And(i, mask)];
        NextHits(index, root, start, i);
        ghost var before := filed;
        ghost var l := Bucket(root);
        ghost var expiredBefore := expired;
        expired := SweepBucket(root, expired);
        assert Progress(filed0, filed, expired, done + {root}) && filed.Keys <= before.Keys by {
          ProgressStep(filed0, before, filed, expiredBefore, expired, done, root, l);
        }
        done := done + {root};
        i := i + 1;
      }
      AllHits(index, prevTicks, delta);
    }

    lemma NoHits(start: int)
      requires Structure()
      ensures forall r :: r in slots ==> SlotOk(slots[r]) && !Hit(slots[r], start, start)
    {
      InSlots();
      forall r | r in slots ensures !Hit(slots[r], start, start) {
        HitNone(slots[r], start);
      }
    }

    /** One more tick is one more bucket. */
    lemma NextHits(index: nat, root: Node, start: nat, i: nat)
      requires Structure() && index < LEVELS && start <= i
      requires |wheel| == LEVELS && |wheel[index]| == Buckets(index) && root == wheel[index][i % Buckets(index)]
      ensures root in slots && slots[root].level == index
      ensures forall r :: r in slots ==> SlotOk(slots[r])
      ensures forall r :: r in slots && slots[r].level == index ==> (Hit(slots[r], start, i + 1) <==> Hit(slots[r], start, i) || r == root)
    {
      hide Structure, Hit;
      InSlots();
      forall r | r in slots && slots[r].level == index ensures Hit(slots[r], start, i + 1) <==> Hit(slots[r], start, i) || r == root {
        assert wheel[slots[r].level][slots[r].index] == r;
        HitNext(slots[r], start, i);
      }
    }

    lemma AllHits(index: nat, prevTicks: nat, delta: nat)
      requires Structure() && index < LEVELS && delta > 0
      ensures forall r :: r in slots ==> SlotOk(slots[r])
      ensures forall r :: r in slots && slots[r].level == index ==>
        var start := prevTicks % Buckets(index);
        (Hit(slots[r], start, start + Min(delta + 1, Buckets(index))) <==> Hit(slots[r], prevTicks, prevTicks + delta + 1))
    {
      hide Structure, Hit;
      InSlots();
      forall r | r in slots && slots[r].level == index
        ensures var start := prevTicks % Buckets(index);
          (Hit(slots[r], start, start + Min(delta + 1, Buckets(index))) <==> Hit(slots[r], prevTicks, prevTicks + delta + 1))
      {
        AllTicks(slots[r], prevTicks, delta);
      }
    }

    lemma InSlots()
      requires Structure()
      ensures Geometry() && |wheel| == LEVELS && forall i :: 0 <= i < LEVELS ==> |wheel[i]| == Buckets(i)
      ensures forall i, j :: 0 <= i < LEVELS && 0 <= j < |wheel[i]| ==> wheel[i][j] in slots && slots[wheel[i][j]] == Slot(i, j)
      ensures forall r :: r in slots ==> SlotOk(slots[r]) && wheel[slots[r].level][slots[r].index] == r
    {
    }

    lemma Bucket(root: Node) returns (l: seq<Node>)
      requires Structure() && root in slots
      ensures root in lists && l == lists[root] && NoDup(l)
      ensures forall n :: n in l <==> n in filed && filed[n].root == root
      ensures forall n :: n in l ==> n !in slots
    {
      l := lists[root];
    }

    /**
      Moves the wheel to a new time. Handed over are exactly the scheduled entries whose deadline has
      passed and whose bucket was swept; every other entry stays scheduled, those in swept buckets
      filed anew. For an entry whose deadline is no earlier than when it was filed, passed means
      handed over as soon as the finest tick advances; one that was filed late waits for the coarsest.
    */
    method DeleteExpired(nowNanos: int64) returns (expired: seq<Node>)
      requires Valid() && time <= nowNanos
      modifies `time, `lists, `filed, slots.Keys`prevExp, slots.Keys`nextExp, filed.Keys`prevExp, filed.Keys`nextExp
      ensures Valid() && time == nowNanos
      ensures NoDup(expired) && filed.Keys == old(filed.Keys) - (set n | n in expired)
      ensures forall n :: n in expired ==> n.prevExp == null && n.nextExp == null
      ensures forall n :: n in expired <==>
        n in old(filed) && Unsigned(n.expiresAt) < nowNanos && Swept(slots[old(filed)[n].root], old(time), nowNanos)
      ensures forall n :: n in old(filed) && old(filed)[n].due <= Unsigned(n.expiresAt) ==>
        (n in expired <==>
          && Unsigned(n.expiresAt) < nowNanos && Tick(0, old(time)) < Tick(0, nowNanos)
          && (Late(slots[old(filed)[n].root], old(filed)[n].due, old(time)) ==> Tick(4, old(time)) < Tick(4, nowNanos)))
      ensures forall n :: n in old(filed) && old(time) <= old(filed)[n].due <= Unsigned(n.expiresAt) <= nowNanos - SECOND ==> n in expired
      ensures forall n :: n in filed ==>
        filed[n] == if Swept(slots[old(filed)[n].root], old(time), nowNanos) then FilingFor(Unsigned(n.expiresAt), nowNanos) else old(filed)[n]
    {
      hide Structure, Ring, Progress, Geometry, Swept, Hit, Tick, Sound, Late, NoDup;
      InSlots();
      RootsInSlots();
      ghost var filed0 := filed;
      var prevTime := time;
      time := nowNanos;
      expired := [];
      NothingReleased();
      ghost var done := {};
      ProgressStart(filed);
      var i := 0;
      while i < LEVELS
        invariant i <= LEVELS && filed.Keys <= filed0.Keys && done <= slots.Keys
        invariant Structure() && time == nowNanos
        invariant Progress(filed0, filed, expired, done) && Released(expired) && NoDup(expired)
        invariant forall r :: r in slots ==> (r in done <==> slots[r].level < i && Swept(slots[r], prevTime, time))
      {
        var previousTicks := Tick(i, prevTime);
        var currentTicks := Tick(i, time);
        TickMonotone(i, prevTime, time);
        var delta := currentTicks - previousTicks;
        if delta == 0 {
          forall r | r in slots ensures Swept(slots[r], prevTime, time) ==> slots[r].level < i {
            LaterLevels(slots[r], i, prevTime, time);
          }
          break;
        }
        forall r | r in slots && slots[r].level == i
          ensures Swept(slots[r], prevTime, time) <==> Hit(slots[r], previousTicks, previousTicks + delta + 1)
        {
          ThisLevel(slots[r], prevTime, time);
        }
        expired, done := DeleteExpiredFromBucket(i, previousTicks, delta, expired, filed0, done);
        i := i + 1;
      }
      assert forall r :: r in slots ==> (r in done <==> Swept(slots[r], prevTime, time));
      SweepSound(filed0, filed, expired, done, prevTime);
      SweepExact(filed0, filed, expired, done, prevTime);
    }

    lemma RootsInSlots()
      requires Structure()
      ensures forall n :: n in filed ==> filed[n].root in slots
    {
    }

    lemma SweepSound(filed0: map<Node, Filing>, filed: map<Node, Filing>, expired: seq<Node>, done: set<Node>, prev: nat)
      requires Geometry() && time <= MAX_INT64 && prev <= time && Progress(filed0, filed, expired, done)
      requires forall n :: n in filed0 ==> filed0[n].root in slots && Sound(slots[filed0[n].root], filed0[n].due, prev)
      requires forall r :: r in slots ==> (r in done <==> Swept(slots[r], prev, time))
      ensures forall n :: n in filed ==> filed[n].root in slots && Sound(slots[filed[n].root], filed[n].due, time)
    {
      forall n | n in filed ensures filed[n].root in slots && Sound(slots[filed[n].root], filed[n].due, time) {
        if filed0[n].root in done {
          FilingSound(Unsigned(n.expiresAt), time);
        } else {
          UnsweptSound(slots[filed0[n].root], filed0[n].due, prev, time);
        }
      }
    }

    lemma SweepExact(filed0: map<Node, Filing>, filed: map<Node, Filing>, expired: seq<Node>, done: set<Node>, prev: nat)
      requires Geometry() && time <= MAX_INT64 && prev <= time && Progress(filed0, filed, expired, done)
      requires forall n :: n in filed0 ==> filed0[n].root in slots && Sound(slots[filed0[n].root], filed0[n].due, prev)
      requires forall r :: r in slots ==> (r in done <==> Swept(slots[r], prev, time))
      ensures filed.Keys == filed0.Keys - (set n | n in expired)
      ensures forall n :: n in expired <==>
        n in filed0 && Unsigned(n.expiresAt) < time && Swept(slots[filed0[n].root], prev, time)
      ensures forall n :: n in filed0 && filed0[n].due <= Unsigned(n.expiresAt) ==>
        (n in expired <==>
          && Unsigned(n.expiresAt) < time && Tick(0, prev) < Tick(0, time)
          && (Late(slots[filed0[n].root], filed0[n].due, prev) ==> Tick(4, prev) < Tick(4, time)))
      ensures forall n :: n in filed0 && prev <= filed0[n].due <= Unsigned(n.expiresAt) <= time - SECOND ==> n in expired
      ensures forall n :: n in filed ==>
        filed[n] == if Swept(slots[filed0[n].root], prev, time) then FilingFor(Unsigned(n.expiresAt), time) else filed0[n]
    {
      hide Geometry, FilingFor, Swept, Tick, Sound, Late, NoDup;
      OneSecond(prev, time);
      forall n | n in filed0 && filed0[n].due <= Unsigned(n.expiresAt) && Unsigned(n.expiresAt) < time
        ensures filed0[n].due >= prev ==> !Late(slots[filed0[n].root], filed0[n].due, prev)
        ensures n in expired <==>
          && Tick(0, prev) < Tick(0, time)
          && (Late(slots[filed0[n].root], filed0[n].due, prev) ==> Tick(4, prev) < Tick(4, time))
      {
        PassedIsSwept(slots[filed0[n].root], filed0[n].due, prev, time);
        InTime(slots[filed0[n].root], filed0[n].due, prev);
      }
    }
  }

  lemma InTime(slot: Slot, due: nat, time: nat)
    ensures due >= time ==> !Late(slot, due, time)
  {
  }

  lemma ThisLevel(slot: Slot, prev: nat, now: nat)
    requires SlotOk(slot) && Tick(slot.level, prev) < Tick(slot.level, now)
    ensures Swept(slot, prev, now) <==> Hit(slot, Tick(slot.level, prev), Tick(slot.level, now) + 1)
  {
  }

  lemma LaterLevels(slot: Slot, level: nat, prev: nat, now: nat)
    requires SlotOk(slot) && level < LEVELS && prev <= now && Tick(level, prev) == Tick(level, now)
    ensures Swept(slot, prev, now) ==> slot.level < level
  {
    if level <= slot.level && Tick(slot.level, prev) < Tick(slot.level, now) {
      FinerAdvances(level, slot.level, prev, now);
    }
  }

  /** The slots visited by the sweep, at most one round, are those on which some tick of the interval falls. */
  lemma AllTicks(slot: Slot, prevTicks: nat, delta: nat)
    requires SlotOk(slot)
    ensures var b := Buckets(slot.level);
      Hit(slot, prevTicks % b, prevTicks % b + Min(delta + 1, b)) <==> Hit(slot, prevTicks, prevTicks + delta + 1)
  {
    var b := Buckets(slot.level);
    var start, end := prevTicks % b, prevTicks % b + Min(delta + 1, b);
    hide FallsOn;
    if Hit(slot, start, end) {
      var x :| start <= x < end && FallsOn(x, slot);
      TickOfVisit(slot, prevTicks, x);
    }
    if Hit(slot, prevTicks, prevTicks + delta + 1) {
      var q :| prevTicks <= q < prevTicks + delta + 1 && FallsOn(q, slot);
      VisitOfTick(slot, prevTicks, q);
    }
  }

  lemma TickOfVisit(slot: Slot, prevTicks: nat, x: nat)
    requires SlotOk(slot) && FallsOn(x, slot)
    ensures FallsOn(prevTicks + (x - prevTicks % Buckets(slot.level)), slot)
  {
    SameResidue(slot.level, x, prevTicks / Buckets(slot.level));
  }

  lemma VisitOfTick(slot: Slot, prevTicks: nat, q: nat)
    requires SlotOk(slot) && prevTicks <= q && FallsOn(q, slot)
    ensures var b := Buckets(slot.level);
      FallsOn(prevTicks % b + (q - prevTicks) % b, slot) && (q - prevTicks) % b < b && (q - prevTicks) % b <= q - prevTicks
  {
    var b := Buckets(slot.level);
    SameResidue(slot.level, prevTicks % b + (q - prevTicks) % b, prevTicks / b + (q - prevTicks) / b);
  }

  lemma SameResidue(level: nat, x: nat, rounds: nat)
    requires level < LEVELS
    ensures (x + rounds * Buckets(level)) % Buckets(level) == x % Buckets(level)
  {
    if rounds > 0 {
      SameResidue(level, x, rounds - 1);
      ModShift(x + (rounds - 1) * Buckets(level), Buckets(level));
    }
  }

  lemma Detached(root: Node, l: seq<Node>)
    requires Ring(root, l)
    ensures root !in l && root.nextExp == At(root, l, 0)
    ensures forall j :: 0 <= j < |l| ==> l[j].nextExp == At(root, l, j + 1)
    ensures NoDup(l)
  {
  }

  lemma AtEnd(root: Node, l: seq<Node>, k: nat)
    requires k <= |l| && root !in l
    ensures At(root, l, k) == root <==> k == |l|
    ensures k < |l| ==> At(root, l, k) == l[k]
  {
  }

  lemma EmptyRing(root: Node)
    requires root.prevExp == root && root.nextExp == root
    ensures Ring(root, [])
  {
  }

  lemma OthersDiffer(l: seq<Node>, k: nat)
    requires NoDup(l) && k < |l|
    ensures forall j :: 0 <= j < |l| && j != k ==> l[j] != l[k]
  {
  }

  lemma BucketsMask(level: nat, x: nat)
    requires level < LEVELS
    ensures And(x, Buckets(level) - 1) == x % Buckets(level)
  {
    assert IsPow2(1) && IsPow2(2) && IsPow2(4) && IsPow2(8) && IsPow2(16) && IsPow2(32) && IsPow2(64);
    AndMask(x, Buckets(level));
  }
}
