/** What the queue promises its users, over every run from a new queue. */
module MpscTheorems {
  import opened Arith
  import opened Mpsc
  import opened MpscSafety
  import opened Options

  /** The offset helpers mask with a number of the form 2 * capacity - 2 and halve. */
  lemma OffsetIsMasked(index: nat, capacity: nat)
    requires IsPow2(capacity)
    ensures Offset(index, 2 * (capacity - 1)) == And(index, 2 * (capacity - 1)) / 2
    ensures capacity > 1 ==> LinkOffset(2 * (capacity - 1)) == capacity
  {
    var mask := 2 * (capacity - 1);
    ModDouble(index / 2, capacity, index % 2);
    AndMask(index / 2, capacity);
    assert mask / 2 == capacity - 1 && mask % 2 == 0;
    assert And(index, mask) / 2 == And(index / 2, mask / 2);
  }

  /** Popped values are a prefix of the pushed ones, in the order in which indices were reserved. */
  ghost predicate Fifo(s: State) {
    s.popped <= s.log
  }

  /** At most the rounded maximum capacity is reserved and not yet taken. */
  ghost predicate Bounded(s: State, capacity: nat) {
    |s.popped| <= |s.log| <= |s.popped| + capacity
  }

  /** Every finished TryPush owns one position of the log, or met a full queue. */
  ghost predicate PushesOk(s: State) {
    && (forall t :: t in s.prod ==> !s.prod[t].Crashed?)
    && (forall t :: t in s.prod && s.prod[t].Pushed? ==>
          s.prod[t].ticket < |s.log| && s.log[s.prod[t].ticket] == s.prod[t].v)
    && (forall t, u :: t in s.prod && u in s.prod && t != u && s.prod[t].Pushed? && s.prod[u].Pushed? ==>
          s.prod[t].ticket != s.prod[u].ticket)
    && (forall t :: t in s.prod && s.prod[t].Refused? ==> s.prod[t].wasFull)
  }

  /** Every finished TryPop returned the value it took, or met an empty queue. */
  ghost predicate PopsOk(s: State) {
    && !s.cons.CCrashed?
    && (s.cons.Popped? ==> |s.popped| > 0 && s.cons.v == s.popped[|s.popped| - 1])
    && (s.cons.Empty? ==> s.cons.wasEmpty)
  }

  /** Over every interleaving of any number of producers with the consumer. */
  lemma EveryRun(initial: nat, max: nat, actions: seq<Action>)
    requires initial <= 0x8000_0000 && max <= 0x8000_0000 && Create(initial, max).Some?
    ensures var s := Run(Create(initial, max).value, actions);
      Fifo(s) && Bounded(s, RoundUpPow2(max)) && PushesOk(s) && PopsOk(s)
  {
    var q := Create(initial, max).value;
    InitOk(RoundUpPow2(initial), RoundUpPow2(max));
    RunOk(q, actions);
    RunKeepsMax(q, actions);
    Promises(Run(q, actions));
  }

  lemma Promises(s: State)
    requires Inv(s)
    ensures Fifo(s) && Bounded(s, s.maxQ / 2) && PushesOk(s) && PopsOk(s)
  {
    hide Data;
    forall t | t in s.prod
      ensures !s.prod[t].Crashed?
      ensures s.prod[t].Pushed? ==> s.prod[t].ticket < |s.log| && s.log[s.prod[t].ticket] == s.prod[t].v
      ensures s.prod[t].Refused? ==> s.prod[t].wasFull
    {
      assert PcOk(s, s.prod[t]);
    }
    forall t, u | t in s.prod && u in s.prod && t != u && s.prod[t].Pushed? && s.prod[u].Pushed?
      ensures s.prod[t].ticket != s.prod[u].ticket
    {
      assert PcOk(s, s.prod[t]);
      assert Apart(s.prod[t], s.prod[u]);
    }
  }

  lemma {:induction false} RunKeepsMax(s: State, actions: seq<Action>)
    ensures Run(s, actions).maxQ == s.maxQ
    decreases |actions|
  {
    if actions != [] {
      RunKeepsMax(Step(s, actions[0]), actions[1..]);
    }
  }

  /** A step extends the log only by reserving a position for the pushed value, and takes values one at a time. */
  lemma StepHistory(s: State, a: Action)
    requires Inv(s)
    ensures var s' := Step(s, a);
      && (s'.log == s.log ||
            (a.Produce? && a.t in s.prod && Ticket(s.prod[a.t]) == -1
             && Ticket(s'.prod[a.t]) == |s.log| && s'.log == s.log + [s.prod[a.t].v]))
      && (s'.popped == s.popped ||
            (a.Consume? && |s.popped| < |s.log| && s'.popped == s.popped + [s.log[|s.popped|]]
             && s'.cons == CAdvance(s.cIdx, s.log[|s.popped|])))
  {
    hide Inv;
    if a.Produce? {
      ProducerHistory(s, a.t);
    } else if a.Consume? {
      ConsumerHistory(s);
    }
  }

  lemma ProducerHistory(s: State, t: nat)
    requires Inv(s)
    ensures var s' := ProduceStep(s, t);
      s'.popped == s.popped &&
      (s'.log == s.log ||
         (t in s.prod && Ticket(s.prod[t]) == -1 && Ticket(s'.prod[t]) == |s.log| && s'.log == s.log + [s.prod[t].v]))
  {
    if t in s.prod && (s.prod[t].SlowDecide? || s.prod[t].CasIndex?) {
      ReservedIndex(s, t);
    } else {
      NoReservation(s, t);
    }
    hide Inv, GrowStep;
  }

  lemma NoReservation(s: State, t: nat)
    requires t in s.prod ==> !s.prod[t].SlowDecide? && !s.prod[t].CasIndex?
    ensures ProduceStep(s, t).log == s.log && ProduceStep(s, t).popped == s.popped
  {
  }

  lemma ReservedIndex(s: State, t: nat)
    requires Inv(s) && t in s.prod && (s.prod[t].SlowDecide? || s.prod[t].CasIndex?)
    ensures s.pIdx == s.prod[t].p ==> s.pIdx == 2 * |s.log|
  {
    hide Data, Consumer;
    Known(s, t);
  }

  lemma ConsumerHistory(s: State)
    requires Inv(s)
    ensures var s' := ConsumeStep(s);
      s'.log == s.log &&
      (s'.popped == s.popped ||
         (|s.popped| < |s.log| && s'.popped == s.popped + [s.log[|s.popped|]] && s'.cons == CAdvance(s.cIdx, s.log[|s.popped|])))
  {
    if s.cons.CHave? && s.cons.slot.Elem? {
      ElemIsNext(s);
    }
  }

  // ---------- One caller at a time ----------

  predicate Done(pc: Pc) {
    pc.Idle? || pc.Pushed? || pc.Refused? || pc.Crashed?
  }

  /** Producer t alone takes up to `fuel` steps, until its call returns. */
  function Finish(s: State, t: nat, fuel: nat): State
    decreases fuel
  {
    if fuel == 0 || Done(PcOf(s, t)) then s else Finish(ProduceStep(s, t), t, fuel - 1)
  }

  /** TryPush by producer t while nobody else runs, given enough steps. */
  function PushAlone(s: State, t: nat, v: Value, fuel: nat): State {
    Finish(Step(s, BeginPush(t, v)), t, fuel)
  }

  function Rank(pc: Pc): nat {
    match pc
    case Grow(_, _, _, _) => 8
    case GrowMask(_, _, _, _, _) => 7
    case GrowElem(_, _, _, _, _, _) => 6
    case GrowLink(_, _, _, _, _, _) => 5
    case GrowLoad(_, _, _, _, _, _) => 4
    case GrowLimit(_, _, _, _, _, _, _) => 3
    case GrowIndex(_, _, _, _, _) => 2
    case GrowJump(_, _, _, _, _) => 1
    case Publish(_, _, _, _) => 1
    case _ => 0
  }

  /** Once a position is reserved the call always succeeds. */
  lemma {:induction false} FinishReserved(s: State, t: nat, fuel: nat)
    requires Inv(s) && t in s.prod && Rank(s.prod[t]) >= 1 && fuel >= Rank(s.prod[t])
    ensures var s' := Finish(s, t, fuel);
      && s' == s.(pIdx := s'.pIdx, pMask := s'.pMask, pBuf := s'.pBuf, pLimit := s'.pLimit, bufs := s'.bufs,
                  starts := s'.starts, prod := s.prod[t := Pushed(s.prod[t].v, s.prod[t].p / 2)])
    decreases fuel
  {
    hide Inv;
    var s1 := ProduceStep(s, t);
    ProduceOk(s, t);
    NotCrashed(s1, t);
    ReservedStep(s, t);
    FinishOnce(s, t, fuel);
    if Rank(s1.prod[t]) >= 1 {
      FinishReserved(s1, t, fuel - 1);
    }
  }

  lemma ReservedStep(s: State, t: nat)
    requires t in s.prod && Rank(s.prod[t]) >= 1
    ensures var s' := ProduceStep(s, t);
      && t in s'.prod && s' == s.(pIdx := s'.pIdx, pMask := s'.pMask, pBuf := s'.pBuf, pLimit := s'.pLimit, bufs := s'.bufs,
                  starts := s'.starts, prod := s.prod[t := s'.prod[t]])
      && (s'.prod[t].Crashed?
          || (if Rank(s.prod[t]) > 1
              then Rank(s'.prod[t]) == Rank(s.prod[t]) - 1 && s'.prod[t].v == s.prod[t].v && s'.prod[t].p == s.prod[t].p
              else s'.prod[t] == Pushed(s.prod[t].v, s.prod[t].p / 2)))
  {
    match s.prod[t]
    case Publish(_, _, _, _) =>
    case Grow(_, _, _, _) =>
    case GrowMask(_, _, _, _, _) =>
    case GrowElem(_, _, _, _, _, _) =>
    case GrowLink(_, _, _, _, _, _) =>
    case GrowLoad(_, _, _, _, _, _) =>
    case GrowLimit(_, _, _, _, _, _, _) =>
    case GrowIndex(_, _, _, _, _) =>
    case GrowJump(_, _, _, _, _) =>
  }

  lemma NotCrashed(s: State, t: nat)
    requires Inv(s) && t in s.prod
    ensures !s.prod[t].Crashed?
  {
    assert PcOk(s, s.prod[t]);
  }

  /** With nobody else inside a call, TryPush fails exactly when the queue is full. */
  lemma PushAloneOk(s: State, t: nat, v: Value, fuel: nat)
    requires fuel >= 16 && Inv(s) && s.pIdx % 2 == 0 && s.cIdx == 2 * |s.popped| && !PcOf(s, t).Crashed? && Done(PcOf(s, t))
    ensures var s' := PushAlone(s, t, v, fuel);
      && s'.popped == s.popped
      && t in s'.prod
      && (|s.log| - |s.popped| == s.maxQ / 2 ==> s'.prod[t].Refused? && s'.log == s.log)
      && (|s.log| - |s.popped| < s.maxQ / 2 ==> s'.prod[t] == Pushed(v, |s.log|) && s'.log == s.log + [v])
      && (forall u :: u in s.prod && u != t ==> u in s'.prod && s'.prod[u] == s.prod[u])
  {
    hide Inv;
    IndexFacts(s);
    var s1 := Goto(s, t, LoadLimit(v));
    StepOk(s, BeginPush(t, v));
    Reads(s1, t, v, fuel);
    var s5 := ReadsEnd(s1, t, v);
    GotoTwice(s, t, LoadLimit(v), s5.prod[t]);
    if s.pLimit <= s.pIdx {
      SlowAlone(s, s5, t, v, fuel - 4);
    } else {
      CasAlone(s, s5, t, v, fuel - 4);
    }
  }

  ghost predicate Same4(s: State, s': State) {
    s' == s.(prod := s'.prod, pLimit := s'.pLimit)
  }

  lemma IndexFacts(s: State)
    requires Inv(s) && s.pIdx % 2 == 0
    ensures s.pIdx == 2 * |s.log| && s.maxQ % 2 == 0 && 2 * |s.log| <= s.cIdx + s.maxQ
    ensures s.pLimit <= s.cIdx + s.maxQ && s.pMask + 2 <= s.maxQ
  {
    hide Data, Producers, Consumer;
  }

  function ReadsEnd(s: State, t: nat, v: Value): State {
    Goto(s, t, if s.pLimit <= s.pIdx then SlowLoad(v, s.pLimit, s.pIdx, s.pMask, s.pBuf)
               else CasIndex(v, s.pLimit, s.pIdx, s.pMask, s.pBuf))
  }

  lemma GotoTwice(s: State, t: nat, x: Pc, y: Pc)
    ensures Goto(Goto(s, t, x), t, y) == Goto(s, t, y)
  {
    assert s.prod[t := x][t := y] == s.prod[t := y];
  }

  /** One read step of producer t, when the step leads from x to y. */
  lemma Read1(s: State, t: nat, x: Pc, y: Pc, fuel: nat)
    requires Inv(Goto(s, t, x)) && !Done(x) && fuel > 0
    requires ProduceStep(Goto(s, t, x), t) == Goto(Goto(s, t, x), t, y)
    ensures Inv(Goto(s, t, y)) && Finish(Goto(s, t, x), t, fuel) == Finish(Goto(s, t, y), t, fuel - 1)
  {
    hide Inv;
    ProduceOk(Goto(s, t, x), t);
    GotoTwice(s, t, x, y);
    FinishOnce(Goto(s, t, x), t, fuel);
  }

  lemma Read2(s: State, t: nat, v: Value, fuel: nat)
    requires fuel >= 2 && Inv(Goto(s, t, LoadLimit(v))) && s.pIdx % 2 == 0
    ensures var x := LoadMask(v, s.pLimit, s.pIdx);
      Inv(Goto(s, t, x)) && Finish(Goto(s, t, LoadLimit(v)), t, fuel) == Finish(Goto(s, t, x), t, fuel - 2)
  {
    hide Inv, Finish;
    var x, y := LoadIndex(v, s.pLimit), LoadMask(v, s.pLimit, s.pIdx);
    Read1(s, t, LoadLimit(v), x, fuel);
    Read1(s, t, x, y, fuel - 1);
  }

  lemma Read3(s: State, t: nat, v: Value, fuel: nat)
    requires fuel >= 2 && Inv(Goto(s, t, LoadMask(v, s.pLimit, s.pIdx)))
    ensures Inv(ReadsEnd(s, t, v))
    ensures Finish(Goto(s, t, LoadMask(v, s.pLimit, s.pIdx)), t, fuel) == Finish(ReadsEnd(s, t, v), t, fuel - 2)
  {
    hide Inv, Finish;
    var x, y := LoadMask(v, s.pLimit, s.pIdx), LoadBuffer(v, s.pLimit, s.pIdx, s.pMask);
    Read1(s, t, x, y, fuel);
    Read1(s, t, y, PcOf(ReadsEnd(s, t, v), t), fuel - 1);
  }

  lemma Reads(s: State, t: nat, v: Value, fuel: nat)
    requires fuel >= 4 && Inv(s) && t in s.prod && s.prod[t] == LoadLimit(v) && s.pIdx % 2 == 0
    ensures Finish(s, t, fuel) == Finish(ReadsEnd(s, t, v), t, fuel - 4) && Inv(ReadsEnd(s, t, v))
  {
    hide Inv, Finish;
    assert Goto(s, t, LoadLimit(v)) == s by {
      assert s.prod[t := LoadLimit(v)] == s.prod;
    }
    Read2(s, t, v, fuel);
    Read3(s, t, v, fuel - 2);
  }

  lemma FinishOnce(s: State, t: nat, fuel: nat)
    requires fuel > 0 && !Done(PcOf(s, t))
    ensures Finish(s, t, fuel) == Finish(ProduceStep(s, t), t, fuel - 1)
  {
  }

  lemma CasAlone(s: State, s5: State, t: nat, v: Value, fuel: nat)
    requires Inv(s5) && fuel >= 2 && Same4(s, s5) && t in s5.prod && s5.prod[t].CasIndex? && s5.prod[t].v == v
    requires s5.prod[t].p == s.pIdx == 2 * |s.log| && s5.prod == s.prod[t := s5.prod[t]]
    ensures var s' := Finish(s5, t, fuel);
      && s'.popped == s.popped && t in s'.prod
      && s'.prod[t] == Pushed(v, |s.log|) && s'.log == s.log + [v]
      && (forall u :: u in s.prod && u != t ==> u in s'.prod && s'.prod[u] == s.prod[u])
  {
    hide Inv;
    var s6 := ProduceStep(s5, t);
    ProduceOk(s5, t);
    FinishOnce(s5, t, fuel);
    FinishReserved(s6, t, fuel - 1);
  }

  lemma SlowAlone(s: State, s5: State, t: nat, v: Value, fuel: nat)
    requires Inv(s5) && fuel >= 12 && Same4(s, s5) && t in s5.prod && s5.prod[t].SlowLoad? && s5.prod[t].v == v
    requires s5.prod[t].p == s.pIdx == 2 * |s.log| && s5.prod[t].limit == s5.pLimit && s5.prod == s.prod[t := s5.prod[t]]
    requires s.cIdx == 2 * |s.popped| && s.maxQ % 2 == 0
    requires s5.prod[t].mask + 2 <= s.maxQ && 2 * |s.log| <= s.cIdx + s.maxQ
    ensures var s' := Finish(s5, t, fuel);
      && s'.popped == s.popped && t in s'.prod
      && (|s.log| - |s.popped| == s.maxQ / 2 ==> s'.prod[t].Refused? && s'.log == s.log)
      && (|s.log| - |s.popped| < s.maxQ / 2 ==> s'.prod[t] == Pushed(v, |s.log|) && s'.log == s.log + [v])
      && (forall u :: u in s.prod && u != t ==> u in s'.prod && s'.prod[u] == s.prod[u])
  {
    hide Inv;
    var s6 := ProduceStep(s5, t);
    ProduceOk(s5, t);
    FinishOnce(s5, t, fuel);
    var s7 := ProduceStep(s6, t);
    ProduceOk(s6, t);
    FinishOnce(s6, t, fuel - 1);
    var pc := s6.prod[t];
    assert pc.c == s.cIdx && pc.p == s.pIdx;
    var cap := CapacityOf(s, pc.mask);
    if pc.c + cap > pc.p {
      CasAlone(s, s7, t, v, fuel - 2);
    } else if s.maxQ - (pc.p - pc.c) > 0 {
      FinishReserved(s7, t, fuel - 2);
    }
  }

  // ---------- The consumer alone ----------

  predicate CDone(c: CPc) {
    c.CIdle? || c.Popped? || c.Empty? || c.CCrashed?
  }

  function CFinish(s: State, fuel: nat): State
    decreases fuel
  {
    if fuel == 0 || CDone(s.cons) then s else CFinish(ConsumeStep(s), fuel - 1)
  }

  function PopAlone(s: State, fuel: nat): State {
    CFinish(Step(s, BeginPop), fuel)
  }

  /** No producer is between reserving a position and making it visible, and the resize lock is free. */
  ghost predicate Settled(s: State) {
    && s.pIdx % 2 == 0
    && forall t :: t in s.prod ==> ElemDue(s.prod[t]) == -1 && JumpDue(s.prod[t]) == -1
  }

  lemma ConsumeOnce(s: State, fuel: nat)
    requires Inv(s) && !CDone(s.cons) && fuel > 0 && Settled(s)
    ensures CFinish(s, fuel) == CFinish(ConsumeStep(s), fuel - 1)
    ensures Inv(ConsumeStep(s)) && ConsumeStep(s).prod == s.prod && ConsumeStep(s).log == s.log && ConsumeStep(s).pIdx == s.pIdx && Settled(ConsumeStep(s))
  {
    hide Inv;
    ConsumeOk(s);
    ConsumerHistory(s);
  }

  /** What the next cell holds when the producers have settled. */
  lemma NextCell(s: State)
    requires Inv(s) && Settled(s) && s.cons.CLoad?
    ensures s.cons.b < |s.bufs| && Offset(s.cons.index, s.cons.mask) < |s.bufs[s.cons.b]|
    ensures var x := s.bufs[s.cons.b][Offset(s.cons.index, s.cons.mask)];
      && (|s.popped| == |s.log| ==> x.Nil? && s.cons.index == s.pIdx)
      && (|s.popped| < |s.log| ==> x.Jump? || x == Elem(s.log[|s.popped|]))
  {
    ConsumerOffset(s);
    EvenIndex(s);
    var k := |s.popped|;
    if k < Hi(s.starts, s.log, s.cBuf) {
      assert CellOk(s.bufs, s.log, s.prod, s.cBuf, k);
    } else if s.cBuf == Last(s) {
      assert At(s.bufs, Last(s), k).Nil?;
    } else {
      assert JumpOk(s.bufs, s.starts, s.log, s.prod, s.cBuf);
      if s.cBuf + 1 < Last(s) {
        IncreasingAt(s.starts, s.cBuf + 1, Last(s));
      }
    }
  }

  lemma EvenIndex(s: State)
    requires Inv(s) && Settled(s) && s.cons.CLoad?
    ensures |s.popped| == |s.log| ==> s.cIdx == s.pIdx
  {
  }

  /** TryPop alone returns the oldest element not yet taken, and nil exactly when there is none. */
  lemma PopAloneOk(s: State, fuel: nat)
    requires fuel >= 10 && Inv(s) && Settled(s) && CDone(s.cons)
    ensures var s' := PopAlone(s, fuel);
      && s'.log == s.log && s'.prod == s.prod
      && (|s.popped| == |s.log| ==> s'.cons.Empty? && s'.popped == s.popped)
      && (|s.popped| < |s.log| ==> s'.cons == Popped(s.log[|s.popped|]) && s'.popped == s.popped + [s.log[|s.popped|]])
  {
    hide Inv;
    CNotCrashed(s);
    var s1 := Step(s, BeginPop);
    StepOk(s, BeginPop);
    NextCell(s1);
    var s2 := ConsumeStep(s1);
    ConsumeOnce(s1, fuel);
    InOrder(s);
    if |s1.popped| == |s1.log| {
      assert s2.cons.CCheck?;
      ConsumeOnce(s2, fuel - 1);
    } else if s2.cons.slot.Jump? {
      JumpAlone(s2, fuel - 1);
    } else {
      ConsumeOnce(s2, fuel - 1);
      var s3 := ConsumeStep(s2);
      CNotCrashed(s3);
      ConsumeOnce(s3, fuel - 2);
    }
  }

  lemma InOrder(s: State)
    requires Inv(s)
    ensures |s.popped| <= |s.log|
  {
  }

  lemma CNotCrashed(s: State)
    requires Inv(s)
    ensures !s.cons.CCrashed?
  {
  }

  lemma JumpAlone(s: State, fuel: nat)
    requires Inv(s) && Settled(s) && s.cons.CHave? && s.cons.slot.Jump? && fuel >= 8 && |s.popped| < |s.log|
    ensures var s' := CFinish(s, fuel);
      s'.log == s.log && s'.prod == s.prod && s'.cons == Popped(s.log[|s.popped|])
      && s'.popped == s.popped + [s.log[|s.popped|]]
  {
    hide Inv;
    ConsumeOnce(s, fuel);
    var s1 := ConsumeStep(s);
    ConsumeOnce(s1, fuel - 1);
    var s2 := ConsumeStep(s1);
    CNotCrashed(s2);
    ConsumeOnce(s2, fuel - 2);
    var s3 := ConsumeStep(s2);
    CNotCrashed(s3);
    ConsumeOnce(s3, fuel - 3);
    EnterAlone(ConsumeStep(s3), fuel - 4);
  }

  lemma EnterAlone(s: State, fuel: nat)
    requires Inv(s) && Settled(s) && s.cons.CSetMask? && fuel >= 4 && |s.popped| < |s.log|
    ensures var s' := CFinish(s, fuel);
      s'.log == s.log && s'.prod == s.prod && s'.cons == Popped(s.log[|s.popped|])
      && s'.popped == s.popped + [s.log[|s.popped|]]
  {
    hide Inv;
    ConsumeOnce(s, fuel);
    var s1 := ConsumeStep(s);
    CNotCrashed(s1);
    ConsumeOnce(s1, fuel - 1);
    var s2 := ConsumeStep(s1);
    CNotCrashed(s2);
    TakenValue(s2);
    ConsumeOnce(s2, fuel - 2);
    var s3 := ConsumeStep(s2);
    CNotCrashed(s3);
    ConsumeOnce(s3, fuel - 3);
  }

  lemma TakenValue(s: State)
    requires Inv(s) && s.cons.CClear?
    ensures |s.popped| < |s.log| && s.cons.v == s.log[|s.popped|]
  {
  }
}
