/** Safety of the queue over every interleaving. */
module MpscSafety {
  import opened Arith
  import opened Mpsc

  // ---------- Vocabulary ----------

  function Size(bufs: seq<seq<Slot>>, i: nat): int
    requires i < |bufs|
  {
    |bufs[i]| - 1
  }

  function Last(s: State): int {
    |s.bufs| - 1
  }

  /** First position at which buffer i no longer stores elements. */
  function Hi(starts: seq<nat>, log: seq<Value>, i: nat): nat {
    if i + 1 < |starts| then starts[i + 1] else |log|
  }

  /** First position of buffer i not yet taken. */
  function Lo(starts: seq<nat>, popped: seq<Value>, i: nat): nat
    requires i < |starts|
  {
    Max(starts[i], |popped|)
  }

  function Cell(k: nat, n: nat): (c: nat)
    requires n >= 1
    ensures c < n
  {
    if k < n then k else Cell(k - n, n)
  }

  /** The cell of buffer i in which position k falls. */
  function At(bufs: seq<seq<Slot>>, i: nat, k: nat): Slot
    requires i < |bufs| && Size(bufs, i) >= 1
  {
    bufs[i][Cell(k, Size(bufs, i))]
  }

  predicate Growing(pc: Pc) {
    pc.Grow? || pc.GrowMask? || pc.GrowElem? || pc.GrowLink? || pc.GrowLoad? || pc.GrowLimit? || pc.GrowIndex?
  }

  /** The position whose element a producer has still to store, or -1. */
  function ElemDue(pc: Pc): int {
    if pc.Publish? || pc.Grow? || pc.GrowMask? || pc.GrowElem? then pc.p / 2 else -1
  }

  /** The buffer whose jump marker a producer has still to store, or -1. */
  function JumpDue(pc: Pc): int {
    if pc.GrowMask? || pc.GrowElem? || pc.GrowLink? || pc.GrowLoad? || pc.GrowLimit? || pc.GrowIndex? || pc.GrowJump?
    then pc.b else -1
  }

  /** The buffer whose link a producer has still to store, or -1. */
  function LinkDue(pc: Pc): int {
    if pc.GrowMask? || pc.GrowElem? || pc.GrowLink? then pc.b else -1
  }

  /** The position reserved by the push a producer is in or has just finished, or -1. */
  function Ticket(pc: Pc): int {
    if pc.Publish? || Growing(pc) || pc.GrowJump? then pc.p / 2
    else if pc.Pushed? then pc.ticket
    else -1
  }

  ghost predicate ElemOwed(prod: map<nat, Pc>, k: int) {
    exists t :: t in prod && ElemDue(prod[t]) == k
  }

  ghost predicate JumpOwed(prod: map<nat, Pc>, i: int) {
    exists t :: t in prod && JumpDue(prod[t]) == i
  }

  ghost predicate LinkOwed(prod: map<nat, Pc>, i: int) {
    exists t :: t in prod && LinkDue(prod[t]) == i
  }

  /** Each element is greater than the one before. */
  predicate Increasing(a: seq<nat>) {
    |a| <= 1 || (a[|a| - 2] < a[|a| - 1] && Increasing(a[..|a| - 1]))
  }

  lemma {:induction false} IncreasingAt(a: seq<nat>, i: nat, j: nat)
    requires Increasing(a) && i < j < |a|
    ensures a[i] < a[j]
  {
    if j == |a| - 1 {
      if i < |a| - 2 {
        IncreasingAt(a[..|a| - 1], i, |a| - 2);
      }
    } else {
      IncreasingAt(a[..|a| - 1], i, j);
    }
  }

  // ---------- Invariant ----------

  ghost predicate Shape(s: State) {
    && |s.bufs| == |s.starts| >= 1 && s.cBuf < |s.bufs|
    && s.starts[0] == 0
    && IsPow2(s.maxQ / 2) && s.maxQ % 2 == 0
    && (forall i :: 0 <= i < |s.bufs| ==> Size(s.bufs, i) >= 2)
    && IsPow2(Size(s.bufs, Last(s))) && 2 * Size(s.bufs, Last(s)) <= s.maxQ
    && Increasing(s.starts)
    && (forall i :: 0 <= i < Last(s) ==> Hi(s.starts, s.log, i) < Lo(s.starts, s.popped, i) + Size(s.bufs, i))
    && s.starts[Last(s)] <= |s.log| && (|s.bufs| > 1 ==> s.starts[Last(s)] < |s.log|)
    && |s.log| <= Lo(s.starts, s.popped, Last(s)) + Size(s.bufs, Last(s))
  }

  ghost predicate LimitOk(s: State, limit: nat)
    requires Shape(s)
  {
    && limit % 2 == 0
    && limit <= s.cIdx + s.maxQ
    && limit <= Max(s.cIdx, 2 * s.starts[Last(s)]) + CapacityOf(s, 2 * (|s.bufs[Last(s)]| - 2))
  }

  ghost predicate Indices(s: State)
    requires Shape(s)
  {
    && |s.popped| <= |s.log|
    && s.popped == s.log[..|s.popped|]
    && (s.cIdx == 2 * |s.popped| || (s.cons.CAdvance? && s.cIdx == 2 * |s.popped| - 2))
    && (s.pIdx == 2 * |s.log| || s.pIdx == 2 * |s.log| - 1)
    && 2 * |s.log| <= s.cIdx + s.maxQ
    && LimitOk(s, s.pLimit)
    && LimitOk(s, if s.pIdx % 2 == 1 then s.pIdx - 1 else s.pIdx)
    && (s.pIdx % 2 == 0 ==>
          && s.pBuf == Last(s)
          && s.pMask == 2 * (|s.bufs[Last(s)]| - 2))
    && s.pMask % 2 == 0 && s.pMask + 2 <= 2 * Size(s.bufs, Last(s))
  }

  /** What a producer knows after loading producerIndex p and then mask and buffer. */
  ghost predicate View(s: State, p: nat, mask: nat)
    requires Shape(s)
  {
    && p % 2 == 0 && p <= s.pIdx && mask % 2 == 0
    && mask + 2 <= 2 * Size(s.bufs, Last(s))
    && (s.pIdx == p ==> mask == s.pMask)
  }

  ghost predicate GrowOk(s: State, pc: Pc)
    requires Shape(s)
    requires pc.GrowMask? || pc.GrowElem? || pc.GrowLink? || pc.GrowLoad? || pc.GrowLimit? || pc.GrowIndex? || pc.GrowJump?
  {
    && pc.p % 2 == 0
    && s.cBuf <= pc.b && pc.b + 1 < |s.bufs| && pc.nb == pc.b + 1
    && s.starts[pc.b] < s.starts[pc.b + 1] == pc.p / 2
    && pc.mask == 2 * (|s.bufs[pc.b]| - 2)
    && At(s.bufs, pc.b, pc.p / 2).Nil?
    && |s.popped| <= pc.p / 2 < |s.log| && s.log[pc.p / 2] == pc.v
    && (!pc.GrowJump? ==>
          && s.pIdx == pc.p + 1
          && pc.nb == Last(s) && s.pBuf == pc.nb
          && pc.p < s.cIdx + s.maxQ
          && (!pc.GrowMask? ==> s.pMask == 2 * (|s.bufs[pc.nb]| - 2))
          && (pc.GrowElem? || pc.GrowLink? || pc.GrowLoad? || pc.GrowLimit? ==> pc.newMask == s.pMask)
          && (pc.GrowLimit? ==> pc.c % 2 == 0 && pc.c <= s.cIdx && pc.p < pc.c + s.maxQ))
    && (pc.GrowMask? || pc.GrowElem? ==> At(s.bufs, pc.nb, pc.p / 2).Nil?)
  }

  ghost predicate PcOk(s: State, pc: Pc)
    requires Shape(s)
  {
    match pc
    case Idle => true
    case LoadLimit(v) => true
    case LoadIndex(v, limit) => LimitOk(s, limit)
    case LoadMask(v, limit, p) => LimitOk(s, limit) && p % 2 == 0 && p <= s.pIdx
    case LoadBuffer(v, limit, p, mask) => LimitOk(s, limit) && View(s, p, mask)
    case SlowLoad(v, limit, p, mask, b) =>
      LimitOk(s, limit) && View(s, p, mask) && (s.pIdx == p ==> b == s.pBuf)
    case SlowDecide(v, limit, p, mask, b, c, wasFull) =>
      && LimitOk(s, limit) && View(s, p, mask) && (s.pIdx == p ==> b == s.pBuf)
      && c % 2 == 0 && c <= s.cIdx && p <= c + s.maxQ
      && (p == c + s.maxQ ==> wasFull)
    case CasIndex(v, limit, p, mask, b) =>
      LimitOk(s, limit) && View(s, p, mask) && (s.pIdx == p ==> b == s.pBuf) && p < limit
    case Publish(v, p, mask, b) =>
      && p % 2 == 0
      && s.cBuf <= b < |s.bufs| && mask == 2 * (|s.bufs[b]| - 2)
      && s.starts[b] <= p / 2 < Hi(s.starts, s.log, b) && (b > 0 ==> s.starts[b] < p / 2)
      && |s.popped| <= p / 2 < |s.log| && s.log[p / 2] == v
      && At(s.bufs, b, p / 2).Nil?
    case Grow(v, p, mask, b) =>
      && p % 2 == 0 && s.pIdx == p + 1
      && s.cBuf <= b == Last(s) && mask == 2 * (|s.bufs[b]| - 2) && 2 * Size(s.bufs, b) < s.maxQ
      && p < s.cIdx + s.maxQ
      && s.starts[b] < p / 2
      && |s.popped| <= p / 2 && p / 2 + 1 == |s.log| && s.log[p / 2] == v
      && At(s.bufs, b, p / 2).Nil?
    case Pushed(v, ticket) => ticket < |s.log| && s.log[ticket] == v
    case Refused(v, wasFull) => wasFull
    case Crashed => false
    case _ => GrowOk(s, pc)
  }

  ghost predicate Producers(s: State)
    requires Shape(s)
  {
    && (forall t :: t in s.prod ==> PcOk(s, s.prod[t]))
    && AllApart(s.prod)
  }

  ghost predicate AllApart(prod: map<nat, Pc>) {
    forall t, u :: t in prod && u in prod && t != u ==> Apart(prod[t], prod[u])
  }

  ghost predicate Apart(x: Pc, y: Pc) {
    && (Growing(x) ==> !Growing(y))
    && (Ticket(x) >= 0 ==> Ticket(x) != Ticket(y))
    && (JumpDue(x) >= 0 ==> JumpDue(x) != JumpDue(y))
  }

  /** Position k of buffer i holds its value, or its producer has still to store it. */
  ghost predicate CellOk(bufs: seq<seq<Slot>>, log: seq<Value>, prod: map<nat, Pc>, i: nat, k: nat)
    requires i < |bufs| && Size(bufs, i) >= 1
  {
    k < |log| && (At(bufs, i, k) == Elem(log[k]) || (At(bufs, i, k).Nil? && ElemOwed(prod, k)))
  }

  ghost predicate Stored(s: State)
    requires Shape(s)
  {
    forall i, k :: s.cBuf <= i < |s.bufs| && Lo(s.starts, s.popped, i) <= k < Hi(s.starts, s.log, i) ==>
      CellOk(s.bufs, s.log, s.prod, i, k)
  }

  /** Free positions of the last buffer are clear. */
  ghost predicate Clear(s: State)
    requires Shape(s)
  {
    forall k :: |s.log| <= k < Lo(s.starts, s.popped, Last(s)) + Size(s.bufs, Last(s)) ==> At(s.bufs, Last(s), k).Nil?
  }

  /** Buffers that were outgrown end in a jump. */
  ghost predicate JumpOk(bufs: seq<seq<Slot>>, starts: seq<nat>, log: seq<Value>, prod: map<nat, Pc>, i: nat)
    requires i < |bufs| && Size(bufs, i) >= 1
  {
    At(bufs, i, Hi(starts, log, i)).Jump? || (At(bufs, i, Hi(starts, log, i)).Nil? && JumpOwed(prod, i))
  }

  ghost predicate Jumps(s: State)
    requires Shape(s)
  {
    forall i :: s.cBuf <= i < Last(s) ==> JumpOk(s.bufs, s.starts, s.log, s.prod, i)
  }

  ghost predicate LinkOk(bufs: seq<seq<Slot>>, prod: map<nat, Pc>, i: nat)
    requires i < |bufs| && Size(bufs, i) >= 1
  {
    bufs[i][Size(bufs, i)] == Link(i + 1) || LinkOwed(prod, i)
  }

  ghost predicate Links(s: State)
    requires Shape(s)
  {
    forall i :: s.cBuf <= i < Last(s) ==> LinkOk(s.bufs, s.prod, i) || (i == s.cBuf && s.cons.CSetBuffer?)
  }

  ghost predicate Data(s: State)
    requires Shape(s)
  {
    Stored(s) && Clear(s) && Jumps(s) && Links(s)
  }

  ghost predicate Consumer(s: State)
    requires Shape(s)
  {
    && s.starts[s.cBuf] <= |s.popped| <= Hi(s.starts, s.log, s.cBuf)
    && (!s.cons.CSetMask? ==> s.cMask == 2 * (|s.bufs[s.cBuf]| - 2))
    && match s.cons
       case CIdle => true
       case Popped(v) => |s.popped| > 0 && v == s.popped[|s.popped| - 1]
       case Empty(wasEmpty) => wasEmpty
       case CLoad(b, index, mask) => b == s.cBuf && index == s.cIdx && mask == s.cMask
       case CCheck(b, index, mask) => b == s.cBuf && index == s.cIdx && mask == s.cMask
       case CSpin(b, index, mask) => b == s.cBuf && index == s.cIdx && mask == s.cMask
       case CHave(b, index, mask, slot) =>
         b == s.cBuf && index == s.cIdx && mask == s.cMask && slot == At(s.bufs, b, |s.popped|) && !slot.Nil?
       case CLink(b, index, mask) =>
         b == s.cBuf && index == s.cIdx && mask == s.cMask && AtJump(s)
       case CUnlink(b, index, mask, link) =>
         b == s.cBuf && index == s.cIdx && mask == s.cMask && AtJump(s) && link == Link(s.cBuf + 1)
       case CSetBuffer(index, next) => index == s.cIdx && AtJump(s) && next == s.cBuf + 1
       case CSetMask(index, next) => index == s.cIdx && next == s.cBuf && AtNext(s)
       case CTake(index, next, mask) => index == s.cIdx && next == s.cBuf && mask == s.cMask && AtNext(s)
       case CClear(index, next, mask, v) =>
         index == s.cIdx && next == s.cBuf && mask == s.cMask && AtNext(s) && v == s.log[|s.popped|]
       case CAdvance(index, v) => index == s.cIdx && s.cIdx == 2 * |s.popped| - 2 && v == s.popped[|s.popped| - 1]
       case CCrashed => false
  }

  /** The consumer stands on a published jump marker. */
  ghost predicate AtJump(s: State)
    requires Shape(s) && s.cBuf < |s.bufs|
  {
    s.cBuf < Last(s) && |s.popped| == Hi(s.starts, s.log, s.cBuf) && At(s.bufs, s.cBuf, |s.popped|).Jump?
  }

  /** The consumer has entered a buffer whose first element is published. */
  ghost predicate AtNext(s: State)
    requires Shape(s) && s.cBuf < |s.bufs|
  {
    && |s.popped| == s.starts[s.cBuf] && s.cBuf > 0 && |s.popped| < |s.log|
    && At(s.bufs, s.cBuf, |s.popped|) == Elem(s.log[|s.popped|])
  }

  ghost predicate Inv(s: State) {
    Shape(s) && Indices(s) && Producers(s) && Data(s) && Consumer(s)
  }

  lemma CellMod(k: nat, n: nat)
    requires n >= 1
    ensures Cell(k, n) == k % n
  {
    if k < n {
      ModUnique(k, n, 0, k);
    } else {
      CellMod(k - n, n);
      ModShift(k - n, n);
    }
  }

  lemma CellDistinct(j: nat, k: nat, n: nat)
    requires n >= 1 && j != k && j < k + n && k < j + n
    ensures Cell(j, n) != Cell(k, n)
  {
    CellMod(j, n);
    CellMod(k, n);
    if j < k { ModDistinct(j, k, n); } else { ModDistinct(k, j, n); }
  }

  /** The offset computed from a doubled index and the mask of a buffer is its cell. */
  lemma OffsetCell(index: nat, size: nat)
    requires size >= 1 && index % 2 == 0
    ensures Offset(index, 2 * (size - 1)) == Cell(index / 2, size)
  {
    ModDouble(index / 2, size, 0);
    CellMod(index / 2, size);
  }

  lemma Parts(s: State)
    requires Inv(s)
    ensures Shape(s) && Indices(s) && Producers(s) && Data(s) && Consumer(s)
  {
  }

  lemma Whole(s: State)
    requires Shape(s) && Indices(s) && Producers(s) && Data(s) && Consumer(s)
    ensures Inv(s)
  {
  }

  lemma InitOk(initial: nat, max: nat)
    requires 2 <= initial <= max && IsPow2(initial) && IsPow2(max)
    ensures Inv(New(initial, max))
  {
    hide IsPow2, Increasing;
    var s := New(initial, max);
    InitShape(initial, max);
    assert Data(s) by {
      forall k | |s.log| <= k < Lo(s.starts, s.popped, Last(s)) + Size(s.bufs, Last(s)) ensures At(s.bufs, Last(s), k).Nil?
      {
        assert 0 <= Cell(k, initial) < initial;
      }
    }
  }

  lemma InitShape(initial: nat, max: nat)
    requires 2 <= initial <= max && IsPow2(initial) && IsPow2(max)
    ensures Shape(New(initial, max))
  {
    var s := New(initial, max);
    assert Size(s.bufs, 0) == initial;
    assert s.maxQ / 2 == max;
  }

  // ---------- Frames ----------

  /** Changes under which what a producer knows of the shared fields stays true. */
  ghost predicate Grows(s: State, s': State)
    requires Shape(s) && Shape(s')
  {
    && s'.maxQ == s.maxQ
    && s.cIdx <= s'.cIdx
    && 2 * s.starts[Last(s)] <= Max(s'.cIdx, 2 * s'.starts[Last(s')])
    && Size(s.bufs, Last(s)) <= Size(s'.bufs, Last(s'))
    && s.pIdx <= s'.pIdx
    && (s'.pIdx == s.pIdx && s.pIdx % 2 == 0 ==> s'.pMask == s.pMask && s'.pBuf == s.pBuf)
    && s.log <= s'.log
  }

  predicate Reading(pc: Pc) {
    || pc.Idle? || pc.LoadLimit? || pc.LoadIndex? || pc.LoadMask? || pc.LoadBuffer? || pc.SlowLoad? || pc.SlowDecide?
    || pc.CasIndex? || pc.Pushed? || pc.Refused?
  }

  lemma LimitGrows(s: State, s': State, limit: nat)
    requires Shape(s) && Shape(s') && Grows(s, s') && LimitOk(s, limit)
    ensures LimitOk(s', limit)
  {
    hide IsPow2, Increasing;
    assert 2 * Size(s'.bufs, Last(s')) <= s.maxQ;
  }

  lemma ReadingStable(s: State, s': State, pc: Pc)
    requires Shape(s) && Shape(s') && Grows(s, s') && PcOk(s, pc) && Reading(pc)
    ensures PcOk(s', pc)
  {
    hide IsPow2, Increasing;
    if !pc.Idle? && !pc.LoadLimit? && !pc.Pushed? && !pc.Refused? {
      LimitGrows(s, s', pc.limit);
    }
  }

  /** The cells, indices and bounds a producer with a reservation relies on are the same in both states. */
  ghost predicate Same(s: State, s': State, b: nat)
    requires Shape(s) && Shape(s')
  {
    && s'.cBuf <= b < |s.bufs| <= |s'.bufs|
    && |s'.bufs[b]| == |s.bufs[b]|
    && s.starts <= s'.starts
    && s.log <= s'.log
    && s.cIdx <= s'.cIdx && s'.maxQ == s.maxQ
  }

  lemma PublishStable(s: State, s': State, pc: Pc)
    requires Shape(s) && Shape(s') && PcOk(s, pc) && pc.Publish? && Same(s, s', pc.b)
    requires |s'.popped| <= pc.p / 2
    requires At(s'.bufs, pc.b, pc.p / 2) == At(s.bufs, pc.b, pc.p / 2)
    requires |s'.starts| == |s.starts| || pc.b < Last(s) || (|s'.starts| == |s.starts| + 1 && pc.p / 2 < s'.starts[|s.starts|])
    ensures PcOk(s', pc)
  {
    hide IsPow2, Increasing;
  }

  lemma GrowJumpStable(s: State, s': State, pc: Pc)
    requires Shape(s) && Shape(s') && PcOk(s, pc) && pc.GrowJump? && Same(s, s', pc.b)
    requires |s'.popped| <= pc.p / 2
    requires At(s'.bufs, pc.b, pc.p / 2) == At(s.bufs, pc.b, pc.p / 2)
    ensures PcOk(s', pc)
  {
    hide IsPow2, Increasing;
  }

  lemma GrowStable(s: State, s': State, pc: Pc)
    requires Shape(s) && Shape(s') && PcOk(s, pc) && pc.Grow? && Same(s, s', pc.b)
    requires |s'.popped| <= pc.p / 2
    requires At(s'.bufs, pc.b, pc.p / 2) == At(s.bufs, pc.b, pc.p / 2)
    requires |s'.bufs| == |s.bufs| && s'.log == s.log && s'.pIdx == s.pIdx
    ensures PcOk(s', pc)
  {
    hide IsPow2, Increasing;
  }

  lemma GrowingStable(s: State, s': State, pc: Pc)
    requires Shape(s) && Shape(s') && PcOk(s, pc) && Growing(pc) && !pc.Grow? && Same(s, s', pc.b)
    requires |s'.popped| <= pc.p / 2
    requires At(s'.bufs, pc.b, pc.p / 2) == At(s.bufs, pc.b, pc.p / 2)
    requires |s'.bufs| == |s.bufs| && s'.log == s.log && |s'.bufs[Last(s)]| == |s.bufs[Last(s)]|
    requires s'.pIdx == s.pIdx && s'.pMask == s.pMask && s'.pBuf == s.pBuf
    requires pc.GrowMask? || pc.GrowElem? ==> At(s'.bufs, pc.nb, pc.p / 2) == At(s.bufs, pc.nb, pc.p / 2)
    ensures PcOk(s', pc)
  {
    hide IsPow2, Increasing;
    assert GrowOk(s, pc);
    assert GrowOk(s', pc);
  }

  /** Nothing but the producers' own program counters, limits and the consumer's index changed. */
  ghost predicate SameStore(s: State, s': State) {
    && s'.bufs == s.bufs && s'.starts == s.starts && s'.log == s.log && s'.popped == s.popped
    && s'.cBuf == s.cBuf && s'.maxQ == s.maxQ
  }

  ghost predicate SameIndex(s: State, s': State) {
    s'.pIdx == s.pIdx && s'.pMask == s.pMask && s'.pBuf == s.pBuf
  }

  lemma QuietStable(s: State, s': State, pc: Pc)
    requires Shape(s) && PcOk(s, pc)
    requires SameStore(s, s') && SameIndex(s, s') && s.cIdx <= s'.cIdx
    ensures Shape(s') && PcOk(s', pc)
  {
    assert Shape(s');
    if Reading(pc) {
      ReadingStable(s, s', pc);
    } else if pc.Publish? {
      PublishStable(s, s', pc);
    } else if pc.GrowJump? {
      GrowJumpStable(s, s', pc);
    } else if pc.Grow? {
      GrowStable(s, s', pc);
    } else {
      GrowingStable(s, s', pc);
    }
  }

  lemma QuietProducers(s: State, s': State, t: nat)
    requires Shape(s) && Producers(s)
    requires SameStore(s, s') && SameIndex(s, s') && s.cIdx <= s'.cIdx
    requires t in s'.prod && s'.prod == s.prod[t := s'.prod[t]]
    requires Ticket(s'.prod[t]) == Ticket(PcOf(s, t)) || Ticket(s'.prod[t]) == -1
    requires JumpDue(s'.prod[t]) == JumpDue(PcOf(s, t))
    requires Growing(s'.prod[t]) ==> Growing(PcOf(s, t))
    requires Shape(s') ==> PcOk(s', s'.prod[t])
    ensures Shape(s') && Producers(s')
  {
    assert Shape(s');
    forall u | u in s'.prod ensures PcOk(s', s'.prod[u]) {
      if u != t {
        QuietStable(s, s', s.prod[u]);
      }
    }
    ApartReplaced(s.prod, t, s'.prod[t]);
  }

  lemma ApartReplaced(prod: map<nat, Pc>, t: nat, pc: Pc)
    requires AllApart(prod)
    requires Ticket(pc) == (if t in prod then Ticket(prod[t]) else -1) || Ticket(pc) == -1
             || (forall u :: u in prod ==> Ticket(prod[u]) != Ticket(pc))
    requires JumpDue(pc) == (if t in prod then JumpDue(prod[t]) else -1) || JumpDue(pc) == -1
             || (forall u :: u in prod ==> JumpDue(prod[u]) != JumpDue(pc))
    requires Growing(pc) ==> (t in prod && Growing(prod[t])) || (forall u :: u in prod ==> !Growing(prod[u]))
    ensures AllApart(prod[t := pc])
  {
    forall u | u in prod && u != t ensures Apart(prod[u], pc) && Apart(pc, prod[u]) {
      assert t in prod ==> Apart(prod[t], prod[u]) && Apart(prod[u], prod[t]);
    }
  }

  lemma OwedKept(prod: map<nat, Pc>, t: nat, pc: Pc)
    requires ElemDue(pc) == (if t in prod then ElemDue(prod[t]) else -1)
    requires JumpDue(pc) == (if t in prod then JumpDue(prod[t]) else -1)
    requires LinkDue(pc) == (if t in prod then LinkDue(prod[t]) else -1)
    ensures forall k :: 0 <= k && ElemOwed(prod, k) ==> ElemOwed(prod[t := pc], k)
    ensures forall i :: 0 <= i && JumpOwed(prod, i) ==> JumpOwed(prod[t := pc], i)
    ensures forall i :: 0 <= i && LinkOwed(prod, i) ==> LinkOwed(prod[t := pc], i)
  {
    var prod' := prod[t := pc];
    forall k | 0 <= k && ElemOwed(prod, k) ensures ElemOwed(prod', k) {
      var u :| u in prod && ElemDue(prod[u]) == k;
      assert u in prod' && ElemDue(prod'[u]) == k;
    }
    forall k | 0 <= k && JumpOwed(prod, k) ensures JumpOwed(prod', k) {
      var u :| u in prod && JumpDue(prod[u]) == k;
      assert u in prod' && JumpDue(prod'[u]) == k;
    }
    forall k | 0 <= k && LinkOwed(prod, k) ensures LinkOwed(prod', k) {
      var u :| u in prod && LinkDue(prod[u]) == k;
      assert u in prod' && LinkDue(prod'[u]) == k;
    }
  }

  // ---------- Producer steps ----------

  /** A step that moves one producer and no shared cell, index or reservation. */
  lemma Moved(s: State, s': State, t: nat)
    requires Inv(s)
    requires SameStore(s, s') && SameIndex(s, s') && s'.cons == s.cons && s'.cIdx == s.cIdx && s'.cMask == s.cMask
    requires t in s'.prod && s'.prod == s.prod[t := s'.prod[t]]
    requires LimitOk(s, s'.pLimit)
    requires PcOk(s, s'.prod[t])
    requires Ticket(s'.prod[t]) == Ticket(PcOf(s, t)) || Ticket(s'.prod[t]) == -1
    requires ElemDue(s'.prod[t]) == ElemDue(PcOf(s, t))
    requires JumpDue(s'.prod[t]) == JumpDue(PcOf(s, t))
    requires LinkDue(s'.prod[t]) == LinkDue(PcOf(s, t))
    requires Growing(s'.prod[t]) ==> Growing(PcOf(s, t))
    ensures Inv(s')
  {
    hide Inv, Producers, Data, Consumer;
    Parts(s);
    QuietStable(s, s', s'.prod[t]);
    QuietProducers(s, s', t);
    OwedKept(s.prod, t, s'.prod[t]);
    QuietIndices(s, s');
    QuietData(s, s');
    QuietConsumer(s, s');
    Whole(s');
  }

  lemma QuietIndices(s: State, s': State)
    requires Shape(s) && Shape(s') && Indices(s)
    requires SameStore(s, s') && SameIndex(s, s') && s'.cons == s.cons && s'.cIdx == s.cIdx
    requires LimitOk(s, s'.pLimit)
    ensures Indices(s')
  {
  }

  lemma QuietConsumer(s: State, s': State)
    requires Shape(s) && Shape(s') && Consumer(s)
    requires SameStore(s, s') && s'.cons == s.cons && s'.cIdx == s.cIdx && s'.cMask == s.cMask
    ensures Consumer(s')
  {
  }

  lemma QuietData(s: State, s': State)
    requires Shape(s) && Shape(s') && Data(s)
    requires SameStore(s, s') && s'.cons == s.cons
    requires forall k :: 0 <= k && ElemOwed(s.prod, k) ==> ElemOwed(s'.prod, k)
    requires forall i :: 0 <= i && JumpOwed(s.prod, i) ==> JumpOwed(s'.prod, i)
    requires forall i :: 0 <= i && LinkOwed(s.prod, i) ==> LinkOwed(s'.prod, i)
    ensures Data(s')
  {
    forall i, k | s.cBuf <= i < |s.bufs| && Lo(s.starts, s.popped, i) <= k < Hi(s.starts, s.log, i)
      ensures CellOk(s'.bufs, s'.log, s'.prod, i, k)
    {
      assert CellOk(s.bufs, s.log, s.prod, i, k);
    }
    forall i | s.cBuf <= i < Last(s)
      ensures JumpOk(s'.bufs, s'.starts, s'.log, s'.prod, i)
      ensures LinkOk(s'.bufs, s'.prod, i) || (i == s.cBuf && s.cons.CSetBuffer?)
    {
      assert JumpOk(s.bufs, s.starts, s.log, s.prod, i);
      assert LinkOk(s.bufs, s.prod, i) || (i == s.cBuf && s.cons.CSetBuffer?);
    }
  }

  lemma CapacityGrows(s: State, mask: nat)
    requires Shape(s) && mask + 2 <= 2 * Size(s.bufs, Last(s))
    ensures CapacityOf(s, mask) <= CapacityOf(s, 2 * (|s.bufs[Last(s)]| - 2))
  {
    hide IsPow2, Increasing;
    assert 2 * Size(s.bufs, Last(s)) <= s.maxQ;
  }

  lemma Known(s: State, t: nat)
    requires Inv(s) && t in s.prod
    ensures PcOk(s, s.prod[t])
  {
  }

  /** Steps that only read on the way to a reservation. */
  lemma ReadStep(s: State, t: nat)
    requires Inv(s) && t in s.prod
    requires var pc := s.prod[t]; pc.LoadLimit? || pc.LoadIndex? || pc.LoadMask? || pc.LoadBuffer? || pc.SlowLoad?
    ensures Inv(ProduceStep(s, t))
  {
    hide Inv, Shape, Indices, Producers, Data, Consumer, PcOk;
    Parts(s);
    Known(s, t);
    var s' := ProduceStep(s, t);
    ReadOk(s, t);
    Moved(s, s', t);
  }

  lemma ReadOk(s: State, t: nat)
    requires Shape(s) && Indices(s) && t in s.prod && PcOk(s, s.prod[t])
    requires var pc := s.prod[t]; pc.LoadLimit? || pc.LoadIndex? || pc.LoadMask? || pc.LoadBuffer? || pc.SlowLoad?
    ensures PcOk(s, ProduceStep(s, t).prod[t])
  {
    hide IsPow2, Increasing;
    var pc := s.prod[t];
    match pc
    case LoadLimit(v) =>
    case LoadIndex(v, limit) =>
    case LoadMask(v, limit, p) =>
    case LoadBuffer(v, limit, p, mask) =>
    case SlowLoad(v, limit, p, mask, b) =>
  }

  lemma DecideStep(s: State, t: nat)
    requires Inv(s) && t in s.prod && s.prod[t].SlowDecide?
    requires ProduceStep(s, t).pIdx == s.pIdx
    ensures Inv(ProduceStep(s, t))
  {
    hide Inv, Shape, Indices, Producers, Data, Consumer, PcOk;
    Parts(s);
    Known(s, t);
    DecideOk(s, t);
    Moved(s, ProduceStep(s, t), t);
  }

  lemma DecideOk(s: State, t: nat)
    requires Shape(s) && Indices(s) && t in s.prod && PcOk(s, s.prod[t]) && s.prod[t].SlowDecide?
    requires ProduceStep(s, t).pIdx == s.pIdx
    ensures LimitOk(s, ProduceStep(s, t).pLimit)
    ensures PcOk(s, ProduceStep(s, t).prod[t])
  {
    hide IsPow2, Increasing;
    var pc := s.prod[t];
    CapacityGrows(s, pc.mask);
    var cap := CapacityOf(s, pc.mask);
    if pc.c + cap > pc.p && s.pLimit == pc.limit {
      assert LimitOk(s, pc.c + cap);
    }
  }

  lemma CasFailStep(s: State, t: nat)
    requires Inv(s) && t in s.prod && s.prod[t].CasIndex? && s.pIdx != s.prod[t].p
    ensures Inv(ProduceStep(s, t))
  {
    hide Inv, Shape, Indices, Producers, Data, Consumer;
    Parts(s);
    Moved(s, ProduceStep(s, t), t);
  }

  /** The next position is free, so it can be reserved. */
  lemma NextIsFree(s: State, p: nat)
    requires Inv(s) && s.pIdx == p && p % 2 == 0 && p / 2 < Lo(s.starts, s.popped, Last(s)) + Size(s.bufs, Last(s))
    ensures p / 2 == |s.log| && At(s.bufs, Last(s), p / 2).Nil?
  {
    assert Clear(s);
  }

  lemma CasStep(s: State, t: nat)
    requires Inv(s) && t in s.prod && s.prod[t].CasIndex? && s.pIdx == s.prod[t].p
    ensures Inv(ProduceStep(s, t))
  {
    hide Inv, Shape, Indices, Producers, Data, Consumer, PcOk;
    Parts(s);
    var pc := s.prod[t];
    Known(s, t);
    CasOk(s, pc);
    NextIsFree(s, pc.p);
    Reserved(s, ProduceStep(s, t), t);
  }

  lemma CasOk(s: State, pc: Pc)
    requires Shape(s) && Indices(s) && pc.CasIndex? && s.pIdx == pc.p && PcOk(s, pc)
    ensures pc.p % 2 == 0 && pc.p / 2 < Lo(s.starts, s.popped, Last(s)) + Size(s.bufs, Last(s))
    ensures LimitOk(s, pc.p + 2) && pc.b == Last(s) && pc.mask == s.pMask
  {
    hide IsPow2, Increasing;
  }

  lemma StartGrowStep(s: State, t: nat)
    requires Inv(s) && t in s.prod && s.prod[t].SlowDecide?
    requires ProduceStep(s, t).pIdx != s.pIdx
    ensures Inv(ProduceStep(s, t))
  {
    hide Inv, Producers, Data, Consumer;
    Parts(s);
    var pc := s.prod[t];
    var s' := ProduceStep(s, t);
    Known(s, t);
    assert LimitOk(s, s.pIdx);
    NextIsFree(s, pc.p);
    Reserved(s, s', t);
  }

  /** Reserving the next position, either to store there or to outgrow the buffer. */
  lemma Reserved(s: State, s': State, t: nat)
    requires Inv(s) && t in s.prod && Reading(s.prod[t]) && !s.prod[t].Pushed? && s.pIdx % 2 == 0
    requires t in s'.prod && s' == s.(pIdx := s'.pIdx, log := s'.log, prod := s.prod[t := s'.prod[t]])
    requires |s'.log| == |s.log| + 1 && s.log <= s'.log
    requires var pc := s'.prod[t];
      && (pc.Publish? || pc.Grow?) && pc.p == s.pIdx && pc.v == s'.log[|s.log|] && pc.b == Last(s) && pc.mask == s.pMask
      && s'.pIdx == (if pc.Grow? then pc.p + 1 else pc.p + 2)
      && (pc.Publish? ==> LimitOk(s, pc.p + 2))
      && (pc.Grow? ==> 2 * Size(s.bufs, Last(s)) < s.maxQ && pc.p < s.cIdx + s.maxQ && s.starts[Last(s)] < pc.p / 2)
    requires |s.log| < Lo(s.starts, s.popped, Last(s)) + Size(s.bufs, Last(s))
    requires At(s.bufs, Last(s), |s.log|).Nil?
    ensures Inv(s')
  {
    hide Inv, Producers, Data, Consumer, Indices, Shape;
    Parts(s);
    ReservedShape(s, s');
    ReservedIndices(s, s', t);
    ReservedProducers(s, s', t);
    ReservedData(s, s', t);
    ReservedConsumer(s, s');
    Whole(s');
  }

  lemma ReservedIndices(s: State, s': State, t: nat)
    requires Shape(s) && Shape(s') && Indices(s) && s.pIdx % 2 == 0 && t in s'.prod
    requires s' == s.(pIdx := s'.pIdx, log := s'.log, prod := s'.prod)
    requires |s'.log| == |s.log| + 1 && s.log <= s'.log
    requires var pc := s'.prod[t];
      && (pc.Publish? || pc.Grow?) && pc.p == s.pIdx && pc.v == s'.log[|s.log|] && pc.b == Last(s) && pc.mask == s.pMask
      && s'.pIdx == (if pc.Grow? then pc.p + 1 else pc.p + 2)
      && (pc.Publish? ==> LimitOk(s, pc.p + 2))
      && (pc.Grow? ==> 2 * Size(s.bufs, Last(s)) < s.maxQ && pc.p < s.cIdx + s.maxQ && s.starts[Last(s)] < pc.p / 2)
    requires At(s.bufs, Last(s), |s.log|).Nil?
    ensures Indices(s') && PcOk(s', s'.prod[t])
  {
    hide IsPow2, Increasing;
    var pc := s'.prod[t];
    LimitGrows(s, s', s.pLimit);
    assert Indices(s');
    if pc.Grow? {
      assert PcOk(s', pc);
    } else {
      assert PcOk(s', pc);
    }
  }

  lemma ReservedConsumer(s: State, s': State)
    requires Shape(s) && Shape(s') && Consumer(s)
    requires s' == s.(pIdx := s'.pIdx, log := s'.log, prod := s'.prod) && |s'.log| == |s.log| + 1 && s.log <= s'.log
    ensures Consumer(s')
  {
  }

  lemma ReservedShape(s: State, s': State)
    requires Shape(s) && s' == s.(pIdx := s'.pIdx, log := s'.log, prod := s'.prod)
    requires |s'.log| == |s.log| + 1 && |s.log| < Lo(s.starts, s.popped, Last(s)) + Size(s.bufs, Last(s))
    ensures Shape(s')
  {
    forall i | 0 <= i < Last(s) ensures Hi(s'.starts, s'.log, i) < Lo(s'.starts, s'.popped, i) + Size(s'.bufs, i) {
      assert Hi(s.starts, s.log, i) == Hi(s'.starts, s'.log, i);
    }
  }

  lemma ReservedProducers(s: State, s': State, t: nat)
    requires Shape(s) && Shape(s') && Producers(s) && t in s.prod && Reading(s.prod[t]) && !s.prod[t].Pushed?
    requires t in s'.prod && s' == s.(pIdx := s'.pIdx, log := s'.log, prod := s.prod[t := s'.prod[t]])
    requires |s'.log| == |s.log| + 1 && s.log <= s'.log && s.pIdx < s'.pIdx && s.pIdx % 2 == 0 && s.pIdx == 2 * |s.log|
    requires PcOk(s', s'.prod[t]) && (s'.prod[t].Publish? || s'.prod[t].Grow?) && s'.prod[t].p == s.pIdx
    ensures Producers(s')
  {
    hide PcOk;
    forall u | u in s.prod ensures !Growing(s.prod[u]) && Ticket(s.prod[u]) < |s.log| {
      NoGrower(s, s.prod[u]);
    }
    ApartReplaced(s.prod, t, s'.prod[t]);
    forall u | u in s.prod && u != t ensures PcOk(s', s'.prod[u]) {
      assert PcOk(s, s.prod[u]);
      ReservedOther(s, s', s.prod[u]);
    }
  }

  lemma NoGrower(s: State, pc: Pc)
    requires Shape(s) && PcOk(s, pc) && s.pIdx % 2 == 0
    ensures !Growing(pc) && Ticket(pc) < |s.log|
  {
    hide IsPow2, Increasing;
  }

  lemma ReservedOther(s: State, s': State, pc: Pc)
    requires Shape(s) && Shape(s') && PcOk(s, pc) && !Growing(pc)
    requires s' == s.(pIdx := s'.pIdx, log := s'.log, prod := s'.prod)
    requires |s'.log| == |s.log| + 1 && s.log <= s'.log && s.pIdx < s'.pIdx
    ensures PcOk(s', pc)
  {
    if Reading(pc) {
      ReadingStable(s, s', pc);
    } else if pc.Publish? {
      PublishStable(s, s', pc);
    } else if pc.GrowJump? {
      GrowJumpStable(s, s', pc);
    }
  }

  lemma ReservedData(s: State, s': State, t: nat)
    requires Shape(s) && Shape(s') && Data(s) && t in s.prod && Reading(s.prod[t])
    requires t in s'.prod && s' == s.(pIdx := s'.pIdx, log := s'.log, prod := s.prod[t := s'.prod[t]])
    requires |s'.log| == |s.log| + 1 && s.log <= s'.log
    requires ElemDue(s'.prod[t]) == |s.log| && At(s.bufs, Last(s), |s.log|).Nil?
    ensures Data(s')
  {
    hide IsPow2, Increasing;
    OwedKeptBut(s.prod, t, s'.prod[t]);
    forall i, k | s.cBuf <= i < |s.bufs| && Lo(s'.starts, s'.popped, i) <= k < Hi(s'.starts, s'.log, i)
      ensures CellOk(s'.bufs, s'.log, s'.prod, i, k)
    {
      if i + 1 < Last(s) {
        IncreasingAt(s.starts, i + 1, Last(s));
      }
      if k < |s.log| {
        assert CellOk(s.bufs, s.log, s.prod, i, k);
      }
    }
    forall i | s.cBuf <= i < Last(s)
      ensures JumpOk(s'.bufs, s'.starts, s'.log, s'.prod, i)
      ensures LinkOk(s'.bufs, s'.prod, i) || (i == s.cBuf && s.cons.CSetBuffer?)
    {
      assert JumpOk(s.bufs, s.starts, s.log, s.prod, i);
      assert LinkOk(s.bufs, s.prod, i) || (i == s.cBuf && s.cons.CSetBuffer?);
    }
  }

  /** A debt is lost only by the producer that moves, and only if it pays it. */
  lemma OwedKeptBut(prod: map<nat, Pc>, t: nat, pc: Pc)
    ensures forall k :: 0 <= k && ElemOwed(prod, k) && !(t in prod && ElemDue(prod[t]) == k) ==> ElemOwed(prod[t := pc], k)
    ensures forall i :: 0 <= i && JumpOwed(prod, i) && !(t in prod && JumpDue(prod[t]) == i) ==> JumpOwed(prod[t := pc], i)
    ensures forall i :: 0 <= i && LinkOwed(prod, i) && !(t in prod && LinkDue(prod[t]) == i) ==> LinkOwed(prod[t := pc], i)
    ensures ElemOwed(prod[t := pc], ElemDue(pc)) || ElemDue(pc) < 0
    ensures JumpOwed(prod[t := pc], JumpDue(pc)) || JumpDue(pc) < 0
    ensures LinkOwed(prod[t := pc], LinkDue(pc)) || LinkDue(pc) < 0
  {
    var prod' := prod[t := pc];
    assert t in prod' && prod'[t] == pc;
    forall k | 0 <= k && ElemOwed(prod, k) && !(t in prod && ElemDue(prod[t]) == k) ensures ElemOwed(prod', k) {
      var u :| u in prod && ElemDue(prod[u]) == k;
      assert u in prod' && ElemDue(prod'[u]) == k;
    }
    forall k | 0 <= k && JumpOwed(prod, k) && !(t in prod && JumpDue(prod[t]) == k) ensures JumpOwed(prod', k) {
      var u :| u in prod && JumpDue(prod[u]) == k;
      assert u in prod' && JumpDue(prod'[u]) == k;
    }
    forall k | 0 <= k && LinkOwed(prod, k) && !(t in prod && LinkDue(prod[t]) == k) ensures LinkOwed(prod', k) {
      var u :| u in prod && LinkDue(prod[u]) == k;
      assert u in prod' && LinkDue(prod'[u]) == k;
    }
  }

  // ---------- Storing an element or a jump marker ----------

  lemma PutAt(bufs: seq<seq<Slot>>, b: nat, k: nat, x: Slot, i: nat, j: nat)
    requires b < |bufs| && Size(bufs, b) >= 1 && i < |bufs| && Size(bufs, i) >= 1
    ensures var bufs' := bufs[b := bufs[b][Cell(k, Size(bufs, b)) := x]];
      && Size(bufs', i) == Size(bufs, i)
      && bufs'[i][Size(bufs, i)] == bufs[i][Size(bufs, i)]
      && At(bufs', b, k) == x
      && (i != b || (j != k && j < k + Size(bufs, b) && k < j + Size(bufs, b)) ==> At(bufs', i, j) == At(bufs, i, j))
      && (At(bufs, i, j) != At(bufs, b, k) ==> At(bufs', i, j) == At(bufs, i, j))
  {
    if i == b && j != k && j < k + Size(bufs, b) && k < j + Size(bufs, b) {
      CellDistinct(j, k, Size(bufs, b));
    }
  }

  /** Position k falls in the window of buffer b: not yet taken, and no further than the end of the buffer. */
  ghost predicate Window(s: State, b: nat, k: nat)
    requires Shape(s)
  {
    s.cBuf <= b < |s.bufs| && Lo(s.starts, s.popped, b) <= k <= Hi(s.starts, s.log, b) && k < Lo(s.starts, s.popped, b) + Size(s.bufs, b)
  }

  /** One producer stores x in a clear cell that no other producer is going to use. */
  ghost predicate Puts(s: State, s': State, t: nat, b: nat, k: nat, x: Slot)
    requires Shape(s)
  {
    && t in s.prod && t in s'.prod
    && Window(s, b, k) && At(s.bufs, b, k).Nil?
    && s' == s.(bufs := s.bufs[b := s.bufs[b][Cell(k, Size(s.bufs, b)) := x]], prod := s.prod[t := s'.prod[t]])
    && Ticket(s.prod[t]) == k && Ticket(s'.prod[t]) == k
    && (Growing(s'.prod[t]) ==> Growing(s.prod[t]))
    && (JumpDue(s'.prod[t]) == JumpDue(s.prod[t]) || JumpDue(s'.prod[t]) == -1)
  }

  lemma PutShape(s: State, s': State, t: nat, b: nat, k: nat, x: Slot)
    requires Shape(s) && Puts(s, s', t, b, k, x)
    ensures Shape(s')
  {
    assert forall i :: 0 <= i < |s.bufs| ==> |s'.bufs[i]| == |s.bufs[i]|;
    forall i | 0 <= i < |s'.bufs| ensures Size(s'.bufs, i) >= 2 {
      assert Size(s.bufs, i) == Size(s'.bufs, i);
    }
    forall i | 0 <= i < Last(s') ensures Hi(s'.starts, s'.log, i) < Lo(s'.starts, s'.popped, i) + Size(s'.bufs, i) {
      assert Size(s.bufs, i) == Size(s'.bufs, i);
    }
  }

  /** Where the cell a producer has reserved lies. */
  lemma OwnCell(s: State, pc: Pc)
    requires Shape(s) && PcOk(s, pc) && !Reading(pc)
    ensures pc.Publish? || pc.GrowJump? || Growing(pc)
    ensures s.cBuf <= pc.b < |s.bufs| && |s.popped| <= pc.p / 2
    ensures Ticket(pc) == pc.p / 2 && At(s.bufs, pc.b, pc.p / 2).Nil?
    ensures Lo(s.starts, s.popped, pc.b) <= pc.p / 2 < Lo(s.starts, s.popped, pc.b) + Size(s.bufs, pc.b)
    ensures Growing(pc) && !pc.Grow? ==> pc.nb == Last(s)
    ensures pc.GrowMask? || pc.GrowElem? ==>
              pc.nb < |s.bufs| && Lo(s.starts, s.popped, pc.nb) == pc.p / 2 && At(s.bufs, pc.nb, pc.p / 2).Nil?
  {
    hide IsPow2, Increasing;
  }

  lemma PutOther(s: State, s': State, t: nat, b: nat, k: nat, x: Slot, pc: Pc)
    requires Shape(s) && Shape(s') && Puts(s, s', t, b, k, x) && PcOk(s, pc) && Ticket(pc) != k
    ensures PcOk(s', pc)
  {
    hide IsPow2, Increasing, PcOk;
    if Reading(pc) {
      PutGrows(s, s', t, b, k, x);
      ReadingStable(s, s', pc);
    } else {
      OwnCell(s, pc);
      var j := pc.p / 2;
      PutOtherCell(s, s', t, b, k, x, pc.b, j);
      PutOtherCell(s, s', t, b, k, x, Last(s), Lo(s.starts, s.popped, Last(s)));
      if pc.Publish? {
        PublishStable(s, s', pc);
      } else if pc.GrowJump? {
        GrowJumpStable(s, s', pc);
      } else if pc.Grow? {
        GrowStable(s, s', pc);
      } else {
        if pc.GrowMask? || pc.GrowElem? {
          PutOtherCell(s, s', t, b, k, x, pc.nb, j);
        }
        GrowingStable(s, s', pc);
      }
    }
  }

  lemma PutGrows(s: State, s': State, t: nat, b: nat, k: nat, x: Slot)
    requires Shape(s) && Shape(s') && Puts(s, s', t, b, k, x)
    ensures Grows(s, s')
  {
    hide IsPow2, Increasing;
    assert |s'.bufs[Last(s)]| == |s.bufs[Last(s)]|;
  }

  lemma PutOtherCell(s: State, s': State, t: nat, b: nat, k: nat, x: Slot, i: nat, j: nat)
    requires Shape(s) && Shape(s') && Puts(s, s', t, b, k, x) && i < |s.bufs|
    requires Lo(s.starts, s.popped, i) <= j < Lo(s.starts, s.popped, i) + Size(s.bufs, i)
    ensures j != k ==> At(s'.bufs, i, j) == At(s.bufs, i, j)
    ensures |s'.bufs[i]| == |s.bufs[i]|
  {
    PutAt(s.bufs, b, k, x, i, j);
  }

  lemma PutProducers(s: State, s': State, t: nat, b: nat, k: nat, x: Slot)
    requires Shape(s) && Shape(s') && Producers(s) && Puts(s, s', t, b, k, x) && PcOk(s', s'.prod[t])
    ensures Producers(s')
  {
    hide PcOk, Shape;
    ApartReplaced(s.prod, t, s'.prod[t]);
    forall u | u in s.prod && u != t ensures PcOk(s', s'.prod[u]) {
      assert Apart(s.prod[t], s.prod[u]);
      PutOther(s, s', t, b, k, x, s.prod[u]);
    }
  }

  /** What is stored is what was due: the logged value of the position, or the jump of the buffer. */
  ghost predicate Pays(s: State, s': State, t: nat, b: nat, k: nat, x: Slot)
    requires Shape(s) && Puts(s, s', t, b, k, x)
  {
    && LinkDue(s'.prod[t]) == LinkDue(s.prod[t])
    && ElemDue(s'.prod[t]) == -1
    && if x.Jump?
       then k == Hi(s.starts, s.log, b) && b < Last(s) && JumpDue(s.prod[t]) == b && ElemDue(s.prod[t]) == -1
       else k < Hi(s.starts, s.log, b) && k < |s.log| && x == Elem(s.log[k]) && ElemDue(s.prod[t]) == k
            && JumpDue(s'.prod[t]) == JumpDue(s.prod[t])
  }

  lemma PutData(s: State, s': State, t: nat, b: nat, k: nat, x: Slot)
    requires Shape(s) && Shape(s') && Data(s) && Puts(s, s', t, b, k, x) && Pays(s, s', t, b, k, x)
    ensures Data(s')
  {
    PutStored(s, s', t, b, k, x);
    PutJumps(s, s', t, b, k, x);
    forall j | |s.log| <= j < Lo(s.starts, s.popped, Last(s)) + Size(s.bufs, Last(s)) ensures At(s'.bufs, Last(s), j).Nil? {
      assert At(s.bufs, Last(s), j).Nil?;
      PutAt(s.bufs, b, k, x, Last(s), j);
    }
  }

  lemma PutStored(s: State, s': State, t: nat, b: nat, k: nat, x: Slot)
    requires Shape(s) && Shape(s') && Stored(s) && Puts(s, s', t, b, k, x) && Pays(s, s', t, b, k, x)
    ensures Stored(s')
  {
    OwedKeptBut(s.prod, t, s'.prod[t]);
    forall i, j | s.cBuf <= i < |s.bufs| && Lo(s.starts, s.popped, i) <= j < Hi(s.starts, s.log, i)
      ensures CellOk(s'.bufs, s'.log, s'.prod, i, j)
    {
      assert CellOk(s.bufs, s.log, s.prod, i, j);
      PutAt(s.bufs, b, k, x, i, j);
      if j == k && i != b {
        Disjoint(s, i, b, k);
      }
      assert Hi(s.starts, s.log, i) <= Lo(s.starts, s.popped, i) + Size(s.bufs, i);
    }
  }

  /** Each position is stored in one buffer only. */
  lemma Disjoint(s: State, i: nat, b: nat, k: nat)
    requires Shape(s) && i < |s.bufs| && b < |s.bufs| && s.starts[i] <= k < Hi(s.starts, s.log, i)
    requires s.starts[b] <= k <= Hi(s.starts, s.log, b)
    ensures i == b || (i == b + 1 && k == Hi(s.starts, s.log, b))
  {
    if i + 1 < b {
      IncreasingAt(s.starts, i + 1, b);
    } else if b + 1 < i {
      IncreasingAt(s.starts, b + 1, i);
    }
  }

  lemma PutJumps(s: State, s': State, t: nat, b: nat, k: nat, x: Slot)
    requires Shape(s) && Shape(s') && Jumps(s) && Links(s) && Puts(s, s', t, b, k, x) && Pays(s, s', t, b, k, x)
    ensures Jumps(s') && Links(s')
  {
    OwedKeptBut(s.prod, t, s'.prod[t]);
    forall i | s.cBuf <= i < Last(s)
      ensures JumpOk(s'.bufs, s'.starts, s'.log, s'.prod, i)
      ensures LinkOk(s'.bufs, s'.prod, i) || (i == s.cBuf && s.cons.CSetBuffer?)
    {
      assert JumpOk(s.bufs, s.starts, s.log, s.prod, i);
      assert LinkOk(s.bufs, s.prod, i) || (i == s.cBuf && s.cons.CSetBuffer?);
      PutAt(s.bufs, b, k, x, i, Hi(s.starts, s.log, i));
    }
  }

  lemma PutConsumer(s: State, s': State, t: nat, b: nat, k: nat, x: Slot)
    requires Shape(s) && Shape(s') && Consumer(s) && Puts(s, s', t, b, k, x)
    ensures Consumer(s')
  {
    hide IsPow2, Increasing;
    PutAt(s.bufs, b, k, x, s.cBuf, |s.popped|);
  }

  lemma PutIndices(s: State, s': State, t: nat, b: nat, k: nat, x: Slot)
    requires Shape(s) && Shape(s') && Indices(s) && Puts(s, s', t, b, k, x)
    ensures Indices(s')
  {
    hide IsPow2, Increasing;
    assert |s'.bufs[Last(s)]| == |s.bufs[Last(s)]|;
  }

  lemma Put1(s: State, s': State, t: nat, b: nat, k: nat, x: Slot)
    requires Inv(s) && Puts(s, s', t, b, k, x) && Pays(s, s', t, b, k, x)
    requires Shape(s') ==> PcOk(s', s'.prod[t])
    ensures Inv(s')
  {
    hide Inv, Shape, Indices, Producers, Data, Consumer, Puts, Pays, PcOk;
    Parts(s);
    PutShape(s, s', t, b, k, x);
    PutIndices(s, s', t, b, k, x);
    PutProducers(s, s', t, b, k, x);
    PutData(s, s', t, b, k, x);
    PutConsumer(s, s', t, b, k, x);
    Whole(s');
  }

  lemma PublishStep(s: State, t: nat)
    requires Inv(s) && t in s.prod && s.prod[t].Publish?
    ensures Inv(ProduceStep(s, t))
  {
    hide Inv, Shape, Indices, Producers, Data, Consumer, PcOk;
    Parts(s);
    Known(s, t);
    var pc := s.prod[t];
    DueOk(s, pc, pc.b);
    PaidOk(s, ProduceStep(s, t), t, pc.b, Elem(pc.v));
    Put1(s, ProduceStep(s, t), t, pc.b, pc.p / 2, Elem(pc.v));
  }

  lemma GrowJumpStep(s: State, t: nat)
    requires Inv(s) && t in s.prod && s.prod[t].GrowJump?
    ensures Inv(ProduceStep(s, t))
  {
    hide Inv, Shape, Indices, Producers, Data, Consumer, PcOk;
    Parts(s);
    Known(s, t);
    var pc := s.prod[t];
    DueOk(s, pc, pc.b);
    PaidOk(s, ProduceStep(s, t), t, pc.b, Jump);
    Put1(s, ProduceStep(s, t), t, pc.b, pc.p / 2, Jump);
  }

  lemma GrowElemStep(s: State, t: nat)
    requires Inv(s) && t in s.prod && s.prod[t].GrowElem?
    ensures Inv(ProduceStep(s, t))
  {
    hide Inv, Shape, Indices, Producers, Data, Consumer, PcOk;
    Parts(s);
    Known(s, t);
    var pc := s.prod[t];
    DueOk(s, pc, pc.nb);
    PaidOk(s, ProduceStep(s, t), t, pc.nb, Elem(pc.v));
    Put1(s, ProduceStep(s, t), t, pc.nb, pc.p / 2, Elem(pc.v));
  }

  /** The cell a producer is about to fill is in range, clear, and in the window of its buffer. */
  lemma DueOk(s: State, pc: Pc, b: nat)
    requires Shape(s) && PcOk(s, pc)
    requires (pc.Publish? && b == pc.b) || (pc.GrowJump? && b == pc.b) || (pc.GrowElem? && b == pc.nb)
    ensures Window(s, b, pc.p / 2) && At(s.bufs, b, pc.p / 2).Nil?
    ensures var off := Offset(pc.p, if pc.GrowElem? then pc.newMask else pc.mask);
      off == Cell(pc.p / 2, Size(s.bufs, b)) && InRange(s, b, off)
  {
    OffsetCell(pc.p, Size(s.bufs, b));
  }

  lemma PaidOk(s: State, s': State, t: nat, b: nat, x: Slot)
    requires Shape(s) && t in s.prod && PcOk(s, s.prod[t])
    requires var pc := s.prod[t];
      && (pc.Publish? || pc.GrowJump? || pc.GrowElem?)
      && Window(s, b, pc.p / 2) && At(s.bufs, b, pc.p / 2).Nil?
      && b == (if pc.GrowElem? then pc.nb else pc.b)
      && x == (if pc.GrowJump? then Jump else Elem(pc.v))
      && s' == s.(bufs := s.bufs[b := s.bufs[b][Cell(pc.p / 2, Size(s.bufs, b)) := x]],
                  prod := s.prod[t := if pc.GrowElem? then GrowLink(pc.v, pc.p, pc.mask, pc.b, pc.nb, pc.newMask)
                                      else Pushed(pc.v, pc.p / 2)])
    ensures Puts(s, s', t, b, s.prod[t].p / 2, x) && Pays(s, s', t, b, s.prod[t].p / 2, x)
    ensures Shape(s') ==> PcOk(s', s'.prod[t])
  {
    var pc := s.prod[t];
    assert Puts(s, s', t, b, pc.p / 2, x);
    PutAt(s.bufs, b, pc.p / 2, x, pc.b, pc.p / 2);
    PutAt(s.bufs, b, pc.p / 2, x, b, pc.p / 2);
  }

  // ---------- Outgrowing a buffer ----------

  lemma GrowerAlone(s: State, t: nat, u: nat)
    requires Shape(s) && Producers(s) && t in s.prod && u in s.prod && u != t && Growing(s.prod[t])
    ensures !Growing(s.prod[u]) && PcOk(s, s.prod[u]) && (Ticket(s.prod[u]) >= 0 ==> Ticket(s.prod[u]) != Ticket(s.prod[t]))
  {
    assert Apart(s.prod[t], s.prod[u]);
  }

  ghost predicate Allocates(s: State, s': State, t: nat)
    requires Shape(s)
  {
    && t in s.prod && s.prod[t].Grow? && PcOk(s, s.prod[t])
    && s.pIdx % 2 == 1 && LimitOk(s, s.pIdx - 1)
    && var pc := s.prod[t];
    && s' == s.(bufs := s.bufs + [seq(2 * Size(s.bufs, pc.b) + 1, _ => Nil)], pBuf := |s.bufs|,
                starts := s.starts + [pc.p / 2],
                prod := s.prod[t := GrowMask(pc.v, pc.p, pc.mask, pc.b, |s.bufs|)])
  }

  lemma AllocShape(s: State, s': State, t: nat)
    requires Shape(s) && Allocates(s, s', t)
    ensures Shape(s')
  {
    var n := |s.bufs|;
    Pow2Gap(Size(s.bufs, n - 1), s.maxQ / 2);
    AllocSizes(s, s', t);
    AllocHi(s, s', t);
    AllocStarts(s, s', t);
  }

  lemma AllocSizes(s: State, s': State, t: nat)
    requires Shape(s) && Allocates(s, s', t) && 2 * Size(s.bufs, Last(s)) <= s.maxQ / 2
    ensures forall i :: 0 <= i < |s'.bufs| ==> Size(s'.bufs, i) >= 2
    ensures IsPow2(Size(s'.bufs, Last(s'))) && 2 * Size(s'.bufs, Last(s')) <= s'.maxQ
  {
    var n := |s.bufs|;
    assert Size(s'.bufs, n) == 2 * Size(s.bufs, n - 1) && IsPow2(Size(s'.bufs, n));
    assert forall i :: 0 <= i < n ==> Size(s'.bufs, i) == Size(s.bufs, i);
  }

  lemma AllocStarts(s: State, s': State, t: nat)
    requires Shape(s) && Allocates(s, s', t)
    ensures Increasing(s'.starts)
    ensures s'.starts[0] == 0 && s'.starts[Last(s')] < |s'.log| <= Lo(s'.starts, s'.popped, Last(s')) + Size(s'.bufs, Last(s'))
  {
    assert s'.starts[..|s'.starts| - 1] == s.starts;
  }

  lemma AllocHi(s: State, s': State, t: nat)
    requires Shape(s) && Allocates(s, s', t)
    ensures forall i :: 0 <= i < Last(s') ==> Hi(s'.starts, s'.log, i) < Lo(s'.starts, s'.popped, i) + Size(s'.bufs, i)
  {
    var n := |s.bufs|;
    assert Hi(s'.starts, s'.log, n - 1) == s.prod[t].p / 2;
    forall i | 0 <= i < Last(s') ensures Hi(s'.starts, s'.log, i) < Lo(s'.starts, s'.popped, i) + Size(s'.bufs, i) {
      assert Size(s'.bufs, i) == Size(s.bufs, i);
      if i < n - 1 {
        assert Hi(s'.starts, s'.log, i) == Hi(s.starts, s.log, i);
      }
    }
  }

  lemma AllocProducers(s: State, s': State, t: nat)
    requires Shape(s) && Shape(s') && Producers(s) && Allocates(s, s', t) && PcOk(s', s'.prod[t])
    ensures Producers(s')
  {
    hide PcOk, Shape;
    AllocUnique(s, s', t);
    forall u | u in s.prod && u != t ensures PcOk(s', s'.prod[u]) {
      GrowerAlone(s, t, u);
      AllocOther(s, s', t, s.prod[u]);
    }
  }

  lemma AllocUnique(s: State, s': State, t: nat)
    requires Shape(s) && Shape(s') && Producers(s) && Allocates(s, s', t)
    ensures AllApart(s'.prod)
  {
    hide IsPow2, Increasing;
    forall u | u in s.prod ensures JumpDue(s.prod[u]) != JumpDue(s'.prod[t]) {
      assert PcOk(s, s.prod[u]);
    }
    ApartReplaced(s.prod, t, s'.prod[t]);
  }

  lemma AllocOther(s: State, s': State, t: nat, pc: Pc)
    requires Shape(s) && Shape(s') && Allocates(s, s', t) && PcOk(s, pc) && !Growing(pc)
    requires Ticket(pc) >= 0 ==> Ticket(pc) != Ticket(s.prod[t])
    ensures PcOk(s', pc)
  {
    hide IsPow2, Increasing;
    assert forall i :: 0 <= i < |s.bufs| ==> s'.bufs[i] == s.bufs[i];
    if Reading(pc) {
      ReadingStable(s, s', pc);
    } else if pc.Publish? {
      assert pc.p / 2 < s.prod[t].p / 2;
      PublishStable(s, s', pc);
    } else {
      GrowJumpStable(s, s', pc);
    }
  }

  lemma AllocStored(s: State, s': State, t: nat)
    requires Shape(s) && Shape(s') && Stored(s) && Allocates(s, s', t)
    ensures Stored(s')
  {
    OwedKeptBut(s.prod, t, s'.prod[t]);
    forall i, k | s'.cBuf <= i < |s'.bufs| && Lo(s'.starts, s'.popped, i) <= k < Hi(s'.starts, s'.log, i)
      ensures CellOk(s'.bufs, s'.log, s'.prod, i, k)
    {
      AllocCell(s, s', t, i, k);
      if i < |s.bufs| {
        assert CellOk(s.bufs, s.log, s.prod, i, k);
      }
    }
  }

  lemma AllocCell(s: State, s': State, t: nat, i: nat, k: nat)
    requires Shape(s) && Shape(s') && Allocates(s, s', t) && i < |s'.bufs|
    ensures i < |s.bufs| ==> At(s'.bufs, i, k) == At(s.bufs, i, k) && Lo(s'.starts, s'.popped, i) == Lo(s.starts, s.popped, i)
    ensures i < |s.bufs| ==> Hi(s'.starts, s'.log, i) <= Hi(s.starts, s.log, i)
    ensures i < Last(s) ==> Hi(s'.starts, s'.log, i) == Hi(s.starts, s.log, i) && s'.bufs[i] == s.bufs[i]
    ensures i == Last(s) ==> Hi(s'.starts, s'.log, i) == s.prod[t].p / 2
    ensures i == |s.bufs| ==> At(s'.bufs, i, k).Nil? && Lo(s'.starts, s'.popped, i) == s.prod[t].p / 2 && Hi(s'.starts, s'.log, i) == s.prod[t].p / 2 + 1
  {
  }

  lemma AllocJumps(s: State, s': State, t: nat)
    requires Shape(s) && Shape(s') && Jumps(s) && Links(s) && Allocates(s, s', t)
    ensures Jumps(s') && Links(s')
  {
    OwedKeptBut(s.prod, t, s'.prod[t]);
    forall i | s'.cBuf <= i < Last(s') ensures JumpOk(s'.bufs, s'.starts, s'.log, s'.prod, i) {
      AllocCell(s, s', t, i, Hi(s'.starts, s'.log, i));
      assert i < Last(s) ==> JumpOk(s.bufs, s.starts, s.log, s.prod, i);
    }
    forall i | s'.cBuf <= i < Last(s') ensures LinkOk(s'.bufs, s'.prod, i) || (i == s.cBuf && s.cons.CSetBuffer?) {
      assert i < Last(s) ==> LinkOk(s.bufs, s.prod, i) || (i == s.cBuf && s.cons.CSetBuffer?);
    }
  }

  lemma AllocData(s: State, s': State, t: nat)
    requires Shape(s) && Shape(s') && Data(s) && Allocates(s, s', t)
    ensures Data(s')
  {
    hide Stored, Jumps, Links;
    AllocStored(s, s', t);
    AllocJumps(s, s', t);
  }

  lemma AllocConsumer(s: State, s': State, t: nat)
    requires Shape(s) && Shape(s') && Consumer(s) && Allocates(s, s', t)
    ensures Consumer(s')
  {
    hide IsPow2, Increasing;
    assert s'.bufs[s.cBuf] == s.bufs[s.cBuf];
  }

  lemma AllocIndices(s: State, s': State, t: nat)
    requires Shape(s) && Shape(s') && Indices(s) && Allocates(s, s', t)
    ensures Indices(s') && PcOk(s', s'.prod[t])
  {
    hide IsPow2, Increasing;
    AllocPc(s, s', t);
    LimitGrows(s, s', s.pLimit);
    LimitGrows(s, s', s.pIdx - 1);
    assert Size(s.bufs, Last(s)) <= Size(s'.bufs, Last(s'));
    hide LimitOk, PcOk;
    assert Indices(s');
  }

  lemma AllocPc(s: State, s': State, t: nat)
    requires Shape(s) && Shape(s') && Allocates(s, s', t)
    ensures PcOk(s', s'.prod[t])
  {
    hide IsPow2, Increasing;
    assert s'.bufs[Last(s)] == s.bufs[Last(s)];
  }

  lemma GrowBufferStep(s: State, t: nat)
    requires Inv(s) && t in s.prod && s.prod[t].Grow?
    ensures Inv(ProduceStep(s, t))
  {
    hide Inv, Producers, Data, Consumer;
    Parts(s);
    Known(s, t);
    var s' := ProduceStep(s, t);
    Pow2Gap(Size(s.bufs, s.prod[t].b), s.maxQ / 2);
    assert Allocates(s, s', t);
    Alloc(s, s', t);
  }

  lemma Alloc(s: State, s': State, t: nat)
    requires Inv(s) && Allocates(s, s', t)
    ensures Inv(s')
  {
    hide Inv, Shape, Indices, Producers, Data, Consumer, Allocates, PcOk;
    Parts(s);
    AllocShape(s, s', t);
    AllocIndices(s, s', t);
    AllocProducers(s, s', t);
    AllocData(s, s', t);
    AllocConsumer(s, s', t);
    Whole(s');
  }

  /** While producerIndex is odd, or when it moves, no reader's view of mask and buffer is current. */
  ghost predicate Turns(s: State, s': State, t: nat)
    requires Shape(s)
  {
    && t in s.prod && t in s'.prod && Growing(s.prod[t]) && s.pIdx % 2 == 1
    && s' == s.(pIdx := s'.pIdx, pMask := s'.pMask, prod := s.prod[t := s'.prod[t]])
    && s.pIdx <= s'.pIdx
    && Ticket(s'.prod[t]) == Ticket(s.prod[t]) && JumpDue(s'.prod[t]) == JumpDue(s.prod[t])
    && ElemDue(s'.prod[t]) == ElemDue(s.prod[t]) && LinkDue(s'.prod[t]) == LinkDue(s.prod[t])
  }

  lemma TurnOther(s: State, s': State, t: nat, pc: Pc)
    requires Shape(s) && Turns(s, s', t) && PcOk(s, pc) && !Growing(pc)
    ensures Shape(s') && PcOk(s', pc)
  {
    assert Shape(s');
    if Reading(pc) {
      ReadingStable(s, s', pc);
    } else if pc.Publish? {
      PublishStable(s, s', pc);
    } else {
      GrowJumpStable(s, s', pc);
    }
  }

  lemma Turn(s: State, s': State, t: nat)
    requires Inv(s) && Turns(s, s', t)
    requires Shape(s') ==> Indices(s') && PcOk(s', s'.prod[t])
    ensures Inv(s')
  {
    hide Inv, Producers, Indices, PcOk, Data, Consumer, Shape;
    Parts(s);
    TurnShape(s, s', t);
    TurnProducers(s, s', t);
    OwedKept(s.prod, t, s'.prod[t]);
    QuietData(s, s');
    QuietConsumer(s, s');
    Whole(s');
  }

  lemma TurnShape(s: State, s': State, t: nat)
    requires Shape(s) && Turns(s, s', t)
    ensures Shape(s')
  {
  }

  lemma TurnProducers(s: State, s': State, t: nat)
    requires Shape(s) && Shape(s') && Producers(s) && Turns(s, s', t) && PcOk(s', s'.prod[t])
    ensures Producers(s')
  {
    hide PcOk, Shape;
    ApartReplaced(s.prod, t, s'.prod[t]);
    forall u | u in s.prod && u != t ensures PcOk(s', s'.prod[u]) {
      GrowerAlone(s, t, u);
      TurnOther(s, s', t, s.prod[u]);
    }
  }

  lemma GrowMaskStep(s: State, t: nat)
    requires Inv(s) && t in s.prod && s.prod[t].GrowMask?
    ensures Inv(ProduceStep(s, t))
  {
    hide Inv, Indices, Producers, Data, Consumer, IsPow2, Increasing;
    Parts(s);
    Known(s, t);
    var pc := s.prod[t];
    var m := 2 * (|s.bufs[pc.nb]| - 2);
    var s' := s.(pMask := m, prod := s.prod[t := GrowElem(pc.v, pc.p, pc.mask, pc.b, pc.nb, m)]);
    GrowMaskOk(s, s', t);
    Turn(s, s', t);
  }

  lemma GrowMaskOk(s: State, s': State, t: nat)
    requires Shape(s) && Indices(s) && t in s.prod && s.prod[t].GrowMask? && PcOk(s, s.prod[t])
    requires var pc := s.prod[t]; var m := 2 * (|s.bufs[pc.nb]| - 2);
      s' == s.(pMask := m, prod := s.prod[t := GrowElem(pc.v, pc.p, pc.mask, pc.b, pc.nb, m)])
    ensures Turns(s, s', t) && (Shape(s') ==> Indices(s') && PcOk(s', s'.prod[t]))
  {
    hide IsPow2, Increasing;
  }

  lemma GrowIndexStep(s: State, t: nat)
    requires Inv(s) && t in s.prod && s.prod[t].GrowIndex?
    ensures Inv(ProduceStep(s, t))
  {
    hide Inv, Indices, Producers, Data, Consumer, IsPow2, Increasing;
    Parts(s);
    Known(s, t);
    var pc := s.prod[t];
    var s' := s.(pIdx := pc.p + 2, prod := s.prod[t := GrowJump(pc.v, pc.p, pc.mask, pc.b, pc.nb)]);
    GrowIndexOk(s, s', t);
    Turn(s, s', t);
  }

  lemma GrowIndexOk(s: State, s': State, t: nat)
    requires Shape(s) && Indices(s) && t in s.prod && s.prod[t].GrowIndex? && PcOk(s, s.prod[t])
    requires var pc := s.prod[t];
      s' == s.(pIdx := pc.p + 2, prod := s.prod[t := GrowJump(pc.v, pc.p, pc.mask, pc.b, pc.nb)])
    ensures Turns(s, s', t) && (Shape(s') ==> Indices(s') && PcOk(s', s'.prod[t]))
  {
    hide IsPow2, Increasing;
    assert 2 * Size(s.bufs, Last(s)) <= s.maxQ;
  }

  lemma GrowLoadStep(s: State, t: nat)
    requires Inv(s) && t in s.prod && s.prod[t].GrowLoad?
    ensures Inv(ProduceStep(s, t))
  {
    hide Inv, Shape, Indices, Producers, Data, Consumer, PcOk;
    Parts(s);
    Known(s, t);
    var pc := s.prod[t];
    var pc' := GrowLimit(pc.v, pc.p, pc.mask, pc.b, pc.nb, pc.newMask, s.cIdx);
    GrowLoadOk(s, pc, pc');
    Moved(s, Goto(s, t, pc'), t);
  }

  lemma GrowLoadOk(s: State, pc: Pc, pc': Pc)
    requires Shape(s) && Indices(s) && pc.GrowLoad? && PcOk(s, pc)
    requires pc' == GrowLimit(pc.v, pc.p, pc.mask, pc.b, pc.nb, pc.newMask, s.cIdx)
    ensures PcOk(s, pc')
  {
    hide IsPow2, Increasing;
  }

  lemma GrowLimitStep(s: State, t: nat)
    requires Inv(s) && t in s.prod && s.prod[t].GrowLimit?
    ensures Inv(ProduceStep(s, t))
  {
    hide Inv, Shape, Indices, Producers, Data, Consumer, PcOk;
    Parts(s);
    Known(s, t);
    var pc := s.prod[t];
    GrowLimitOk(s, pc);
    var limit := pc.p + Min(pc.newMask, s.maxQ - (pc.p - pc.c));
    Moved(s, Goto(s.(pLimit := limit), t, GrowIndex(pc.v, pc.p, pc.mask, pc.b, pc.nb)), t);
  }

  lemma GrowLimitOk(s: State, pc: Pc)
    requires Shape(s) && Indices(s) && pc.GrowLimit? && PcOk(s, pc)
    ensures pc.c <= pc.p < pc.c + s.maxQ
    ensures LimitOk(s, pc.p + Min(pc.newMask, s.maxQ - (pc.p - pc.c)))
    ensures PcOk(s, GrowIndex(pc.v, pc.p, pc.mask, pc.b, pc.nb))
  {
    hide IsPow2, Increasing;
    assert GrowOk(s, pc);
    assert 2 * Size(s.bufs, Last(s)) <= s.maxQ;
    var limit := pc.p + Min(pc.newMask, s.maxQ - (pc.p - pc.c));
    assert 2 * s.starts[Last(s)] == pc.p;
    assert limit <= pc.p + CapacityOf(s, pc.newMask);
  }

  /** Linking the outgrown buffer to its successor. */
  lemma GrowLinkStep(s: State, t: nat)
    requires Inv(s) && t in s.prod && s.prod[t].GrowLink?
    ensures Inv(ProduceStep(s, t))
  {
    hide Inv, Producers, Data, Consumer;
    Parts(s);
    Known(s, t);
    var pc := s.prod[t];
    var s' := ProduceStep(s, t);
    assert LinkOffset(pc.mask) == Size(s.bufs, pc.b);
    assert LinkPuts(s, s', t);
    LinkPut(s, s', t);
  }

  ghost predicate LinkPuts(s: State, s': State, t: nat)
    requires Shape(s)
  {
    && t in s.prod && s.prod[t].GrowLink? && PcOk(s, s.prod[t])
    && var pc := s.prod[t];
    && s' == s.(bufs := s.bufs[pc.b := s.bufs[pc.b][Size(s.bufs, pc.b) := Link(pc.b + 1)]],
                prod := s.prod[t := GrowLoad(pc.v, pc.p, pc.mask, pc.b, pc.nb, pc.newMask)])
  }

  /** Element cells are not affected by a store to a link cell. */
  lemma LinkCell(bufs: seq<seq<Slot>>, b: nat, x: Slot, i: nat, j: nat)
    requires b < |bufs| && Size(bufs, b) >= 1 && i < |bufs| && Size(bufs, i) >= 1
    ensures var bufs' := bufs[b := bufs[b][Size(bufs, b) := x]];
      |bufs'[i]| == |bufs[i]| && At(bufs', i, j) == At(bufs, i, j)
      && bufs'[i][Size(bufs, i)] == (if i == b then x else bufs[i][Size(bufs, i)])
  {
  }

  lemma LinkShape(s: State, s': State, b: nat, x: Slot)
    requires Shape(s) && b < |s.bufs|
    requires s'.bufs == s.bufs[b := s.bufs[b][Size(s.bufs, b) := x]]
    requires s'.starts == s.starts && s'.log == s.log && s'.popped == s.popped && s'.cBuf == s.cBuf && s'.maxQ == s.maxQ
    ensures Shape(s')
  {
    assert forall i :: 0 <= i < |s.bufs| ==> |s'.bufs[i]| == |s.bufs[i]|;
    assert forall i :: 0 <= i < |s.bufs| ==> Size(s'.bufs, i) == Size(s.bufs, i);
    forall i | 0 <= i < |s'.bufs| ensures Size(s'.bufs, i) >= 2 {
      assert Size(s.bufs, i) == Size(s'.bufs, i);
    }
    forall i | 0 <= i < Last(s') ensures Hi(s'.starts, s'.log, i) < Lo(s'.starts, s'.popped, i) + Size(s'.bufs, i) {
      assert Size(s.bufs, i) == Size(s'.bufs, i);
    }
  }

  /** Stores to link cells leave every producer's knowledge true. */
  lemma LinkOther(s: State, s': State, b: nat, x: Slot, pc: Pc)
    requires Shape(s) && Shape(s') && PcOk(s, pc) && b < |s.bufs|
    requires s'.bufs == s.bufs[b := s.bufs[b][Size(s.bufs, b) := x]]
    requires s'.starts == s.starts && s'.log == s.log && s'.popped == s.popped && s'.cBuf == s.cBuf && s'.maxQ == s.maxQ
    requires SameIndex(s, s') && s'.cIdx == s.cIdx
    ensures PcOk(s', pc)
  {
    hide IsPow2, Increasing, PcOk;
    LinkCell(s.bufs, b, x, Last(s), 0);
    if Reading(pc) {
      ReadingStable(s, s', pc);
    } else {
      OwnCell(s, pc);
      LinkCell(s.bufs, b, x, pc.b, pc.p / 2);
      if pc.Publish? {
        PublishStable(s, s', pc);
      } else if pc.GrowJump? {
        GrowJumpStable(s, s', pc);
      } else if pc.Grow? {
        GrowStable(s, s', pc);
      } else {
        if pc.GrowMask? || pc.GrowElem? {
          LinkCell(s.bufs, b, x, pc.nb, pc.p / 2);
        }
        GrowingStable(s, s', pc);
      }
    }
  }

  lemma LinkPutProducers(s: State, s': State, t: nat)
    requires Shape(s) && Shape(s') && Producers(s) && LinkPuts(s, s', t)
    ensures Producers(s')
  {
    hide PcOk;
    LinkPutPc(s, s', t);
    ApartReplaced(s.prod, t, s'.prod[t]);
    var pc := s.prod[t];
    LinkTarget(s, pc);
    forall u | u in s.prod && u != t ensures PcOk(s', s'.prod[u]) {
      LinkOther(s, s', pc.b, Link(pc.b + 1), s.prod[u]);
    }
  }

  lemma LinkTarget(s: State, pc: Pc)
    requires Shape(s) && PcOk(s, pc) && pc.GrowLink?
    ensures pc.b < Last(s)
  {
  }

  lemma LinkPutPc(s: State, s': State, t: nat)
    requires Shape(s) && Shape(s') && LinkPuts(s, s', t)
    ensures PcOk(s', s'.prod[t])
  {
    LinkOther(s, s', s.prod[t].b, Link(s.prod[t].b + 1), s.prod[t]);
  }

  lemma LinkPutData(s: State, s': State, t: nat)
    requires Shape(s) && Shape(s') && Data(s) && LinkPuts(s, s', t)
    ensures Data(s')
  {
    hide IsPow2, Increasing;
    var b, x := s.prod[t].b, Link(s.prod[t].b + 1);
    OwedKeptBut(s.prod, t, s'.prod[t]);
    forall i, k | s.cBuf <= i < |s.bufs| && Lo(s.starts, s.popped, i) <= k < Hi(s.starts, s.log, i)
      ensures CellOk(s'.bufs, s'.log, s'.prod, i, k)
    {
      assert CellOk(s.bufs, s.log, s.prod, i, k);
      LinkCell(s.bufs, b, x, i, k);
    }
    forall j | |s.log| <= j < Lo(s.starts, s.popped, Last(s)) + Size(s.bufs, Last(s)) ensures At(s'.bufs, Last(s), j).Nil? {
      assert At(s.bufs, Last(s), j).Nil?;
      LinkCell(s.bufs, b, x, Last(s), j);
    }
    forall i | s.cBuf <= i < Last(s)
      ensures JumpOk(s'.bufs, s'.starts, s'.log, s'.prod, i)
      ensures LinkOk(s'.bufs, s'.prod, i) || (i == s.cBuf && s.cons.CSetBuffer?)
    {
      assert JumpOk(s.bufs, s.starts, s.log, s.prod, i);
      assert LinkOk(s.bufs, s.prod, i) || (i == s.cBuf && s.cons.CSetBuffer?);
      LinkCell(s.bufs, b, x, i, Hi(s.starts, s.log, i));
    }
  }

  lemma LinkPutConsumer(s: State, s': State, t: nat)
    requires Shape(s) && Shape(s') && Consumer(s) && LinkPuts(s, s', t)
    ensures Consumer(s')
  {
    LinkCell(s.bufs, s.prod[t].b, Link(s.prod[t].b + 1), s.cBuf, |s.popped|);
  }

  lemma LinkPutIndices(s: State, s': State, t: nat)
    requires Shape(s) && Shape(s') && Indices(s) && LinkPuts(s, s', t)
    ensures Indices(s')
  {
    hide IsPow2, Increasing;
    assert |s'.bufs[Last(s)]| == |s.bufs[Last(s)]|;
  }

  lemma LinkPut(s: State, s': State, t: nat)
    requires Inv(s) && LinkPuts(s, s', t)
    ensures Inv(s')
  {
    hide IsPow2, Increasing;
    LinkTarget(s, s.prod[t]);
    LinkShape(s, s', s.prod[t].b, Link(s.prod[t].b + 1));
    hide Inv, Shape, Indices, Producers, Data, Consumer, LinkPuts, PcOk;
    Parts(s);
    LinkPutIndices(s, s', t);
    LinkPutProducers(s, s', t);
    LinkPutData(s, s', t);
    LinkPutConsumer(s, s', t);
    Whole(s');
  }

  // ---------- Consumer steps ----------

  /** A step that only moves the consumer, or shows its new index to the producers. */
  lemma ConsumerMoved(s: State, s': State)
    requires Inv(s)
    requires s' == s.(cons := s'.cons, cIdx := s'.cIdx) && s.cIdx <= s'.cIdx
    requires s'.cIdx == s.cIdx || s'.cIdx == 2 * |s.popped|
    requires !s.cons.CAdvance? || s'.cIdx == 2 * |s.popped|
    requires !s.cons.CSetBuffer? && !s'.cons.CAdvance?
    requires Consumer(s) && Shape(s') ==> Consumer(s')
    ensures Inv(s')
  {
    hide Inv, Consumer, Producers, Indices;
    Parts(s);
    assert Shape(s');
    ConsumerMovedProducers(s, s');
    ConsumerMovedIndices(s, s');
    ConsumerMovedData(s, s');
    Whole(s');
  }

  lemma ConsumerMovedProducers(s: State, s': State)
    requires Shape(s) && Producers(s) && s' == s.(cons := s'.cons, cIdx := s'.cIdx) && s.cIdx <= s'.cIdx
    ensures Shape(s') && Producers(s')
  {
    assert Shape(s');
    hide PcOk;
    forall t | t in s.prod ensures PcOk(s', s'.prod[t]) {
      QuietStable(s, s', s.prod[t]);
    }
  }

  lemma ConsumerMovedIndices(s: State, s': State)
    requires Shape(s) && Shape(s') && Indices(s)
    requires s' == s.(cons := s'.cons, cIdx := s'.cIdx) && s.cIdx <= s'.cIdx
    requires s'.cIdx == s.cIdx || s'.cIdx == 2 * |s.popped|
    requires !s.cons.CAdvance? || s'.cIdx == 2 * |s.popped|
    ensures Indices(s')
  {
    hide IsPow2, Increasing;
    LimitGrows(s, s', s.pLimit);
    LimitGrows(s, s', if s.pIdx % 2 == 1 then s.pIdx - 1 else s.pIdx);
  }

  lemma ConsumerMovedData(s: State, s': State)
    requires Shape(s) && Shape(s') && Data(s) && s' == s.(cons := s'.cons, cIdx := s'.cIdx) && !s.cons.CSetBuffer?
    ensures Data(s')
  {
    forall i, k | s.cBuf <= i < |s.bufs| && Lo(s.starts, s.popped, i) <= k < Hi(s.starts, s.log, i)
      ensures CellOk(s'.bufs, s'.log, s'.prod, i, k)
    {
      assert CellOk(s.bufs, s.log, s.prod, i, k);
    }
    forall i | s.cBuf <= i < Last(s)
      ensures JumpOk(s'.bufs, s'.starts, s'.log, s'.prod, i)
      ensures LinkOk(s'.bufs, s'.prod, i)
    {
      assert JumpOk(s.bufs, s.starts, s.log, s.prod, i);
      assert LinkOk(s.bufs, s.prod, i);
    }
  }

  /** The offset the consumer computes is the cell of the next position. */
  lemma ConsumerOffset(s: State)
    requires Shape(s) && s.cIdx == 2 * |s.popped| && s.cMask == 2 * (|s.bufs[s.cBuf]| - 2)
    ensures Offset(s.cIdx, s.cMask) == Cell(|s.popped|, Size(s.bufs, s.cBuf)) < |s.bufs[s.cBuf]|
    ensures LinkOffset(s.cMask) == Size(s.bufs, s.cBuf)
  {
    OffsetCell(s.cIdx, Size(s.bufs, s.cBuf));
  }

  lemma ConsumerIndex(s: State)
    requires Shape(s) && Indices(s) && Consumer(s)
    ensures !s.cons.CAdvance? ==> s.cIdx == 2 * |s.popped|
    ensures s.cons.CCheck? && s.cIdx == s.pIdx ==> |s.log| == |s.popped|
  {
  }

  lemma LocalStep(s: State)
    requires Inv(s) && (s.cons.CLoad? || s.cons.CCheck? || s.cons.CSpin? || s.cons.CAdvance?)
    ensures Inv(ConsumeStep(s))
  {
    hide Inv, Indices, Producers, Data, IsPow2, Increasing;
    Parts(s);
    ConsumerIndex(s);
    if !s.cons.CAdvance? {
      ConsumerOffset(s);
    }
    ConsumerMoved(s, ConsumeStep(s));
  }

  lemma HaveJumpStep(s: State)
    requires Inv(s) && s.cons.CHave? && s.cons.slot.Jump?
    ensures Inv(ConsumeStep(s))
  {
    JumpIsLast(s);
    hide Inv, Producers, Data;
    Parts(s);
    ConsumerMoved(s, ConsumeStep(s));
  }

  /** A jump marker is found only behind the last element of an outgrown buffer. */
  lemma JumpIsLast(s: State)
    requires Shape(s) && Stored(s) && Clear(s) && Consumer(s)
    requires At(s.bufs, s.cBuf, |s.popped|).Jump?
    ensures s.cBuf < Last(s) && |s.popped| == Hi(s.starts, s.log, s.cBuf)
  {
    hide Stored, Clear, Jumps;
    if |s.popped| < Hi(s.starts, s.log, s.cBuf) {
      StoredAt(s, s.cBuf, |s.popped|);
    } else if s.cBuf == Last(s) {
      ClearAt(s, |s.popped|);
    }
  }

  lemma StoredAt(s: State, i: nat, k: nat)
    requires Shape(s) && Stored(s) && s.cBuf <= i < |s.bufs| && Lo(s.starts, s.popped, i) <= k < Hi(s.starts, s.log, i)
    ensures CellOk(s.bufs, s.log, s.prod, i, k)
  {
  }

  lemma ClearAt(s: State, k: nat)
    requires Shape(s) && Clear(s) && |s.log| <= k < Lo(s.starts, s.popped, Last(s)) + Size(s.bufs, Last(s))
    ensures At(s.bufs, Last(s), k).Nil?
  {
  }

  lemma JumpAt(s: State, i: nat)
    requires Shape(s) && Jumps(s) && s.cBuf <= i < Last(s)
    ensures JumpOk(s.bufs, s.starts, s.log, s.prod, i)
  {
  }

  /** Once the jump is published, so are the link and the first element of the next buffer. */
  lemma AfterJump(s: State)
    requires Shape(s) && Producers(s) && Data(s) && AtJump(s) && !s.cons.CSetBuffer?
    ensures s.bufs[s.cBuf][Size(s.bufs, s.cBuf)] == Link(s.cBuf + 1)
  {
    assert LinkOk(s.bufs, s.prod, s.cBuf);
    NoJumpDue(s);
  }

  lemma NoJumpDue(s: State)
    requires Shape(s) && Producers(s) && AtJump(s)
    ensures forall t :: t in s.prod ==> JumpDue(s.prod[t]) != s.cBuf && LinkDue(s.prod[t]) != s.cBuf
  {
    forall t | t in s.prod ensures JumpDue(s.prod[t]) != s.cBuf && LinkDue(s.prod[t]) != s.cBuf {
      assert PcOk(s, s.prod[t]);
    }
  }

  lemma FirstStored(s: State)
    requires Shape(s) && Producers(s) && Data(s) && AtJump(s)
    ensures |s.popped| < |s.log| && At(s.bufs, s.cBuf + 1, |s.popped|) == Elem(s.log[|s.popped|])
  {
    assert s.starts[s.cBuf + 1] == |s.popped|;
    if s.cBuf + 1 < Last(s) {
      IncreasingAt(s.starts, s.cBuf + 1, s.cBuf + 2);
      IncreasingAt(s.starts, s.cBuf + 1, Last(s));
    }
    assert CellOk(s.bufs, s.log, s.prod, s.cBuf + 1, |s.popped|);
    forall t | t in s.prod ensures ElemDue(s.prod[t]) != |s.popped| {
      assert PcOk(s, s.prod[t]);
      NotFirst(s, s.prod[t]);
    }
  }

  lemma NotFirst(s: State, pc: Pc)
    requires Shape(s) && PcOk(s, pc) && AtJump(s)
    ensures ElemDue(pc) != |s.popped|
  {
    if !Reading(pc) && s.cBuf + 1 < pc.b {
      IncreasingAt(s.starts, s.cBuf + 1, pc.b);
    }
  }

  lemma LinkStep(s: State)
    requires Inv(s) && s.cons.CLink?
    ensures Inv(ConsumeStep(s))
  {
    AfterJump(s);
    ConsumerOffset(s);
    hide Inv, Producers, Data;
    Parts(s);
    ConsumerMoved(s, ConsumeStep(s));
  }

  /** Taking the next element: the cell is cleared and its value delivered. */
  ghost predicate Takes(s: State, s': State)
    requires Shape(s)
  {
    && |s.popped| < |s.log| && Lo(s.starts, s.popped, s.cBuf) == |s.popped| < Hi(s.starts, s.log, s.cBuf)
    && At(s.bufs, s.cBuf, |s.popped|) == Elem(s.log[|s.popped|])
    && s'.cons == CAdvance(s.cIdx, s.log[|s.popped|])
    && !s.cons.CAdvance? && !s.cons.CSetBuffer? && !s.cons.CSetMask?
    && s' == s.(bufs := s.bufs[s.cBuf := s.bufs[s.cBuf][Cell(|s.popped|, Size(s.bufs, s.cBuf)) := Nil]],
                popped := s.popped + [s.log[|s.popped|]], cons := s'.cons)
  }

  lemma TakeShape(s: State, s': State)
    requires Shape(s) && Takes(s, s')
    ensures Shape(s')
  {
    assert forall i :: 0 <= i < |s.bufs| ==> |s'.bufs[i]| == |s.bufs[i]|;
    forall i | 0 <= i < |s'.bufs| ensures Size(s'.bufs, i) >= 2 {
      assert Size(s.bufs, i) == Size(s'.bufs, i);
    }
    TakeHi(s, s');
  }

  lemma TakeHi(s: State, s': State)
    requires Shape(s) && Takes(s, s')
    ensures forall i :: 0 <= i < Last(s') ==> Hi(s'.starts, s'.log, i) < Lo(s'.starts, s'.popped, i) + Size(s'.bufs, i)
    ensures |s'.log| <= Lo(s'.starts, s'.popped, Last(s')) + Size(s'.bufs, Last(s'))
  {
    forall i | 0 <= i < |s.bufs| ensures Size(s.bufs, i) == Size(s'.bufs, i) && Lo(s.starts, s.popped, i) <= Lo(s'.starts, s'.popped, i) {
    }
    forall i | 0 <= i < Last(s') ensures Hi(s'.starts, s'.log, i) < Lo(s'.starts, s'.popped, i) + Size(s'.bufs, i) {
      assert Hi(s.starts, s.log, i) < Lo(s.starts, s.popped, i) + Size(s.bufs, i);
    }
  }

  /** A producer that still owes a cell finds it clear, so it is not the one being taken. */
  lemma TakeOther(s: State, s': State, pc: Pc)
    requires Shape(s) && Shape(s') && Takes(s, s') && PcOk(s, pc)
    ensures PcOk(s', pc)
  {
    hide IsPow2, Increasing, PcOk;
    if Reading(pc) {
      TakeGrows(s, s');
      ReadingStable(s, s', pc);
    } else {
      var k := |s.popped|;
      OwnCell(s, pc);
      TakeDistinct(s, s', pc);
      PutAt(s.bufs, s.cBuf, k, Nil, pc.b, pc.p / 2);
      PutAt(s.bufs, s.cBuf, k, Nil, Last(s), k);
      if pc.Publish? {
        PublishStable(s, s', pc);
      } else if pc.GrowJump? {
        GrowJumpStable(s, s', pc);
      } else if pc.Grow? {
        GrowStable(s, s', pc);
      } else {
        if pc.GrowMask? || pc.GrowElem? {
          PutAt(s.bufs, s.cBuf, k, Nil, pc.nb, pc.p / 2);
        }
        GrowingStable(s, s', pc);
      }
    }
  }

  lemma TakeGrows(s: State, s': State)
    requires Shape(s) && Shape(s') && Takes(s, s')
    ensures Grows(s, s')
  {
    hide IsPow2, Increasing;
    assert |s'.bufs[Last(s)]| == |s.bufs[Last(s)]|;
  }

  lemma TakeDistinct(s: State, s': State, pc: Pc)
    requires Shape(s) && Shape(s') && Takes(s, s') && PcOk(s, pc) && !Reading(pc)
    ensures |s.popped| < pc.p / 2
  {
    if s.cBuf + 1 < pc.b {
      IncreasingAt(s.starts, s.cBuf + 1, pc.b);
    }
  }

  lemma TakeProducers(s: State, s': State)
    requires Shape(s) && Shape(s') && Producers(s) && Takes(s, s')
    ensures Producers(s')
  {
    hide PcOk, Shape;
    forall t | t in s.prod ensures PcOk(s', s'.prod[t]) {
      TakeOther(s, s', s.prod[t]);
    }
  }

  lemma TakeStored(s: State, s': State)
    requires Shape(s) && Shape(s') && Stored(s) && Takes(s, s')
    ensures Stored(s')
  {
    forall i, k | s.cBuf <= i < |s.bufs| && Lo(s'.starts, s'.popped, i) <= k < Hi(s'.starts, s'.log, i)
      ensures CellOk(s'.bufs, s'.log, s'.prod, i, k)
    {
      assert CellOk(s.bufs, s.log, s.prod, i, k);
      assert Hi(s.starts, s.log, i) <= Lo(s.starts, s.popped, i) + Size(s.bufs, i);
      PutAt(s.bufs, s.cBuf, |s.popped|, Nil, i, k);
    }
  }

  /** The cell just cleared is the one further position that becomes free in the last buffer. */
  lemma TakeClear(s: State, s': State)
    requires Shape(s) && Shape(s') && Clear(s) && Takes(s, s')
    ensures Clear(s')
  {
    var size := Size(s.bufs, Last(s));
    forall k | |s.log| <= k < Lo(s'.starts, s'.popped, Last(s)) + Size(s'.bufs, Last(s)) ensures At(s'.bufs, Last(s), k).Nil? {
      PutAt(s.bufs, s.cBuf, |s.popped|, Nil, Last(s), k);
      if k < Lo(s.starts, s.popped, Last(s)) + size {
        assert At(s.bufs, Last(s), k).Nil?;
      } else {
        assert k == |s.popped| + size;
        CellMod(k, size);
        CellMod(|s.popped|, size);
        ModShift(|s.popped|, size);
        TakenInLast(s, s');
      }
    }
  }

  lemma TakenInLast(s: State, s': State)
    requires Shape(s) && Takes(s, s') && Lo(s'.starts, s'.popped, Last(s)) > Lo(s.starts, s.popped, Last(s))
    ensures s.cBuf == Last(s)
  {
    if s.cBuf + 1 < Last(s) {
      IncreasingAt(s.starts, s.cBuf + 1, Last(s));
    }
  }

  lemma TakeJumps(s: State, s': State)
    requires Shape(s) && Shape(s') && Jumps(s) && Links(s) && Takes(s, s')
    ensures Jumps(s') && Links(s')
  {
    forall i | s.cBuf <= i < Last(s)
      ensures JumpOk(s'.bufs, s'.starts, s'.log, s'.prod, i)
      ensures LinkOk(s'.bufs, s'.prod, i)
    {
      assert JumpOk(s.bufs, s.starts, s.log, s.prod, i);
      assert LinkOk(s.bufs, s.prod, i);
      PutAt(s.bufs, s.cBuf, |s.popped|, Nil, i, Hi(s.starts, s.log, i));
    }
  }

  lemma TakeIndices(s: State, s': State)
    requires Shape(s) && Shape(s') && Indices(s) && Takes(s, s')
    ensures Indices(s')
  {
    hide IsPow2, Increasing;
    assert |s'.bufs[Last(s)]| == |s.bufs[Last(s)]|;
  }

  lemma TakeConsumer(s: State, s': State)
    requires Shape(s) && Shape(s') && Indices(s) && Consumer(s) && Takes(s, s')
    ensures Consumer(s')
  {
    assert |s'.bufs[s.cBuf]| == |s.bufs[s.cBuf]|;
  }

  lemma Take(s: State, s': State)
    requires Inv(s) && Takes(s, s')
    ensures Inv(s')
  {
    hide Inv, Shape, Indices, Producers, Consumer, Takes, Stored, Clear, Jumps, Links;
    Parts(s);
    TakeShape(s, s');
    TakeIndices(s, s');
    TakeProducers(s, s');
    TakeStored(s, s');
    TakeClear(s, s');
    TakeJumps(s, s');
    TakeConsumer(s, s');
    Whole(s');
  }

  lemma HaveElemStep(s: State)
    requires Inv(s) && s.cons.CHave? && !s.cons.slot.Jump?
    ensures Inv(ConsumeStep(s))
  {
    ConsumerOffset(s);
    ElemIsNext(s);
    hide Inv, Producers, Data;
    Parts(s);
    Take(s, ConsumeStep(s));
  }

  lemma ElemIsNext(s: State)
    requires Shape(s) && Data(s) && Consumer(s)
    requires !At(s.bufs, s.cBuf, |s.popped|).Jump? && !At(s.bufs, s.cBuf, |s.popped|).Nil?
    ensures |s.popped| < Hi(s.starts, s.log, s.cBuf) && |s.popped| < |s.log|
    ensures At(s.bufs, s.cBuf, |s.popped|) == Elem(s.log[|s.popped|])
  {
    hide Stored, Clear, Jumps;
    if |s.popped| < Hi(s.starts, s.log, s.cBuf) {
      StoredAt(s, s.cBuf, |s.popped|);
    } else if s.cBuf == Last(s) {
      ClearAt(s, |s.popped|);
    } else if s.cBuf < Last(s) {
      JumpAt(s, s.cBuf);
    }
  }

  lemma TakeReadStep(s: State)
    requires Inv(s) && s.cons.CTake?
    ensures Inv(ConsumeStep(s))
  {
    ConsumerOffset(s);
    hide Inv, Producers, Data;
    Parts(s);
    ConsumerMoved(s, ConsumeStep(s));
  }

  lemma ClearStep(s: State)
    requires Inv(s) && s.cons.CClear?
    ensures Inv(ConsumeStep(s))
  {
    ConsumerOffset(s);
    NextHi(s);
    hide Inv, Producers, Data;
    Parts(s);
    Take(s, ConsumeStep(s));
  }

  lemma NextHi(s: State)
    requires Shape(s) && Indices(s) && AtNext(s)
    ensures |s.popped| < Hi(s.starts, s.log, s.cBuf)
  {
    if s.cBuf < Last(s) {
      IncreasingAt(s.starts, s.cBuf, s.cBuf + 1);
    }
  }

  /** Unlinking, entering the next buffer, and adopting its mask. */
  lemma UnlinkStep(s: State)
    requires Inv(s) && s.cons.CUnlink?
    ensures Inv(ConsumeStep(s))
  {
    ConsumerOffset(s);
    var s' := ConsumeStep(s);
    assert Unlinks(s, s');
    Unlink(s, s');
  }

  ghost predicate Unlinks(s: State, s': State)
    requires Shape(s)
  {
    && AtJump(s) && s.cons.CUnlink? && s'.cons == CSetBuffer(s.cIdx, s.cBuf + 1)
    && s' == s.(bufs := s.bufs[s.cBuf := s.bufs[s.cBuf][Size(s.bufs, s.cBuf) := Nil]], cons := s'.cons)
  }

  lemma Unlink(s: State, s': State)
    requires Inv(s) && Unlinks(s, s')
    ensures Inv(s')
  {
    LinkShape(s, s', s.cBuf, Nil);
    hide Inv, Shape, Indices, Producers, Data, Consumer, Unlinks, PcOk;
    Parts(s);
    UnlinkProducers(s, s');
    UnlinkData(s, s');
    UnlinkRest(s, s');
    Whole(s');
  }

  lemma UnlinkProducers(s: State, s': State)
    requires Shape(s) && Shape(s') && Producers(s) && Unlinks(s, s')
    ensures Producers(s')
  {
    hide PcOk, Shape;
    forall t | t in s.prod ensures PcOk(s', s'.prod[t]) {
      UnlinkOther(s, s', s.prod[t]);
    }
  }

  lemma UnlinkOther(s: State, s': State, pc: Pc)
    requires Shape(s) && Shape(s') && PcOk(s, pc) && Unlinks(s, s')
    ensures PcOk(s', pc)
  {
    LinkOther(s, s', s.cBuf, Nil, pc);
  }

  lemma UnlinkData(s: State, s': State)
    requires Shape(s) && Shape(s') && Data(s) && Unlinks(s, s')
    ensures Data(s')
  {
    forall i, k | s.cBuf <= i < |s.bufs| && Lo(s.starts, s.popped, i) <= k < Hi(s.starts, s.log, i)
      ensures CellOk(s'.bufs, s'.log, s'.prod, i, k)
    {
      assert CellOk(s.bufs, s.log, s.prod, i, k);
      LinkCell(s.bufs, s.cBuf, Nil, i, k);
    }
    forall j | |s.log| <= j < Lo(s.starts, s.popped, Last(s)) + Size(s.bufs, Last(s)) ensures At(s'.bufs, Last(s), j).Nil? {
      assert At(s.bufs, Last(s), j).Nil?;
      LinkCell(s.bufs, s.cBuf, Nil, Last(s), j);
    }
    forall i | s.cBuf <= i < Last(s)
      ensures JumpOk(s'.bufs, s'.starts, s'.log, s'.prod, i)
      ensures LinkOk(s'.bufs, s'.prod, i) || i == s.cBuf
    {
      assert JumpOk(s.bufs, s.starts, s.log, s.prod, i);
      assert LinkOk(s.bufs, s.prod, i);
      LinkCell(s.bufs, s.cBuf, Nil, i, Hi(s.starts, s.log, i));
    }
  }

  lemma UnlinkRest(s: State, s': State)
    requires Shape(s) && Shape(s') && Indices(s) && Consumer(s) && Unlinks(s, s')
    ensures Indices(s') && Consumer(s')
  {
    assert |s'.bufs[Last(s)]| == |s.bufs[Last(s)]|;
    LinkCell(s.bufs, s.cBuf, Nil, s.cBuf, |s.popped|);
  }

  lemma SetBufferStep(s: State)
    requires Inv(s) && s.cons.CSetBuffer?
    ensures Inv(ConsumeStep(s))
  {
    var s' := s.(cBuf := s.cBuf + 1, cons := CSetMask(s.cIdx, s.cBuf + 1));
    assert ConsumeStep(s) == s' && AtJump(s);
    SetBufferShape(s, s');
    FirstStored(s);
    NoJumpDue(s);
    hide Inv, Indices, Data, PcOk, Shape;
    Parts(s);
    SetBufferProducers(s, s');
    SetBufferData(s, s');
    SetBufferRest(s, s');
    Whole(s');
  }

  lemma SetBufferShape(s: State, s': State)
    requires Shape(s) && AtJump(s) && s' == s.(cBuf := s.cBuf + 1, cons := s'.cons)
    ensures Shape(s')
  {
  }

  lemma SetBufferRest(s: State, s': State)
    requires Shape(s) && Shape(s') && Indices(s) && Consumer(s) && AtJump(s) && s.cons.CSetBuffer?
    requires s' == s.(cBuf := s.cBuf + 1, cons := CSetMask(s.cIdx, s.cBuf + 1))
    requires |s.popped| < |s.log| && At(s.bufs, s.cBuf + 1, |s.popped|) == Elem(s.log[|s.popped|])
    ensures Indices(s') && Consumer(s')
  {
    hide IsPow2, Increasing;
    if s.cBuf + 1 < Last(s) {
      IncreasingAt(s.starts, s.cBuf + 1, s.cBuf + 2);
    }
  }

  lemma SetBufferProducers(s: State, s': State)
    requires Shape(s) && Shape(s') && Producers(s) && AtJump(s) && s' == s.(cBuf := s.cBuf + 1, cons := s'.cons)
    requires forall t :: t in s.prod ==> JumpDue(s.prod[t]) != s.cBuf && LinkDue(s.prod[t]) != s.cBuf
    ensures Producers(s')
  {
    hide PcOk, Shape;
    forall t | t in s.prod ensures PcOk(s', s'.prod[t]) {
      SetBufferOther(s, s', s.prod[t]);
    }
  }

  lemma SetBufferOther(s: State, s': State, pc: Pc)
    requires Shape(s) && Shape(s') && PcOk(s, pc) && AtJump(s) && s' == s.(cBuf := s.cBuf + 1, cons := s'.cons)
    requires JumpDue(pc) != s.cBuf
    ensures PcOk(s', pc)
  {
    if Reading(pc) {
      ReadingStable(s, s', pc);
    } else {
      if pc.Publish? {
        PublishStable(s, s', pc);
      } else if pc.GrowJump? {
        GrowJumpStable(s, s', pc);
      } else if pc.Grow? {
        GrowStable(s, s', pc);
      } else {
        GrowingStable(s, s', pc);
      }
    }
  }

  lemma SetBufferData(s: State, s': State)
    requires Shape(s) && Shape(s') && Data(s) && s' == s.(cBuf := s.cBuf + 1, cons := s'.cons)
    ensures Data(s')
  {
    forall i, k | s'.cBuf <= i < |s.bufs| && Lo(s.starts, s.popped, i) <= k < Hi(s.starts, s.log, i)
      ensures CellOk(s'.bufs, s'.log, s'.prod, i, k)
    {
      assert CellOk(s.bufs, s.log, s.prod, i, k);
    }
    forall i | s'.cBuf <= i < Last(s)
      ensures JumpOk(s'.bufs, s'.starts, s'.log, s'.prod, i)
      ensures LinkOk(s'.bufs, s'.prod, i)
    {
      assert JumpOk(s.bufs, s.starts, s.log, s.prod, i);
      assert LinkOk(s.bufs, s.prod, i);
    }
  }

  lemma SetMaskStep(s: State)
    requires Inv(s) && s.cons.CSetMask?
    ensures Inv(ConsumeStep(s))
  {
    hide IsPow2, Increasing;
    var s' := ConsumeStep(s);
    assert Shape(s');
    hide Inv, PcOk;
    Parts(s);
    forall t | t in s.prod ensures PcOk(s', s'.prod[t]) {
      QuietStable(s, s', s.prod[t]);
    }
    hide Indices;
    SetMaskRest(s, s');
    Whole(s');
  }

  lemma SetMaskRest(s: State, s': State)
    requires Shape(s) && Shape(s') && Indices(s) && Data(s) && !s.cons.CSetBuffer? && !s.cons.CAdvance?
    requires s' == s.(cMask := s'.cMask, cons := s'.cons)
    ensures Indices(s') && Data(s')
  {
    forall i, k | s.cBuf <= i < |s.bufs| && Lo(s.starts, s.popped, i) <= k < Hi(s.starts, s.log, i)
      ensures CellOk(s'.bufs, s'.log, s'.prod, i, k)
    {
      assert CellOk(s.bufs, s.log, s.prod, i, k);
    }
    forall i | s.cBuf <= i < Last(s)
      ensures JumpOk(s'.bufs, s'.starts, s'.log, s'.prod, i)
      ensures LinkOk(s'.bufs, s'.prod, i)
    {
      assert JumpOk(s.bufs, s.starts, s.log, s.prod, i);
      assert LinkOk(s.bufs, s.prod, i);
    }
  }

  // ---------- Every step, every run ----------

  lemma BeginPushStep(s: State, t: nat, v: Value)
    requires Inv(s) && (PcOf(s, t).Idle? || PcOf(s, t).Pushed? || PcOf(s, t).Refused?)
    ensures Inv(Goto(s, t, LoadLimit(v)))
  {
    hide Inv, Producers, Data, Consumer;
    Parts(s);
    Moved(s, Goto(s, t, LoadLimit(v)), t);
  }

  lemma ProduceOk(s: State, t: nat)
    requires Inv(s)
    ensures Inv(ProduceStep(s, t))
  {
    hide Inv;
    if t in s.prod {
      match s.prod[t]
      case LoadLimit(_) => ReadStep(s, t);
      case LoadIndex(_, _) => ReadStep(s, t);
      case LoadMask(_, _, _) => ReadStep(s, t);
      case LoadBuffer(_, _, _, _) => ReadStep(s, t);
      case SlowLoad(_, _, _, _, _) => ReadStep(s, t);
      case SlowDecide(_, _, _, _, _, _, _) =>
        if ProduceStep(s, t).pIdx == s.pIdx { DecideStep(s, t); } else { StartGrowStep(s, t); }
      case CasIndex(_, _, p, _, _) =>
        if s.pIdx == p { CasStep(s, t); } else { CasFailStep(s, t); }
      case Publish(_, _, _, _) => PublishStep(s, t);
      case Grow(_, _, _, _) => GrowBufferStep(s, t);
      case GrowMask(_, _, _, _, _) => GrowMaskStep(s, t);
      case GrowElem(_, _, _, _, _, _) => GrowElemStep(s, t);
      case GrowLink(_, _, _, _, _, _) => GrowLinkStep(s, t);
      case GrowLoad(_, _, _, _, _, _) => GrowLoadStep(s, t);
      case GrowLimit(_, _, _, _, _, _, _) => GrowLimitStep(s, t);
      case GrowIndex(_, _, _, _, _) => GrowIndexStep(s, t);
      case GrowJump(_, _, _, _, _) => GrowJumpStep(s, t);
      case _ =>
    }
  }

  lemma ConsumeOk(s: State)
    requires Inv(s)
    ensures Inv(ConsumeStep(s))
  {
    hide Inv;
    match s.cons
    case CLoad(_, _, _) => LocalStep(s);
    case CCheck(_, _, _) => LocalStep(s);
    case CSpin(_, _, _) => LocalStep(s);
    case CHave(_, _, _, slot) => if slot.Jump? { HaveJumpStep(s); } else { HaveElemStep(s); }
    case CLink(_, _, _) => LinkStep(s);
    case CUnlink(_, _, _, _) => UnlinkStep(s);
    case CSetBuffer(_, _) => SetBufferStep(s);
    case CSetMask(_, _) => SetMaskStep(s);
    case CTake(_, _, _) => TakeReadStep(s);
    case CClear(_, _, _, _) => ClearStep(s);
    case CAdvance(_, _) => LocalStep(s);
    case _ =>
  }

  lemma BeginPopStep(s: State)
    requires Inv(s) && (s.cons.CIdle? || s.cons.Popped? || s.cons.Empty?)
    ensures Inv(s.(cons := CLoad(s.cBuf, s.cIdx, s.cMask)))
  {
    hide Inv, Producers, Data;
    Parts(s);
    ConsumerMoved(s, s.(cons := CLoad(s.cBuf, s.cIdx, s.cMask)));
  }

  lemma StepOk(s: State, a: Action)
    requires Inv(s)
    ensures Inv(Step(s, a))
  {
    hide Inv;
    match a
    case BeginPush(t, v) =>
      if PcOf(s, t).Idle? || PcOf(s, t).Pushed? || PcOf(s, t).Refused? { BeginPushStep(s, t, v); }
    case Produce(t) => ProduceOk(s, t);
    case BeginPop =>
      if s.cons.CIdle? || s.cons.Popped? || s.cons.Empty? { BeginPopStep(s); }
    case Consume => ConsumeOk(s);
  }

  lemma {:induction false} RunOk(s: State, actions: seq<Action>)
    requires Inv(s)
    ensures Inv(Run(s, actions))
    decreases |actions|
  {
    hide Inv;
    if actions != [] {
      StepOk(s, actions[0]);
      RunOk(Step(s, actions[0]), actions[1..]);
    }
  }
}
