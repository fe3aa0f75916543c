/** The queue in use: what a caller meets after any run from a new queue, and what a refusal or an empty answer says. */
module MpscRuns {
  import opened Arith
  import opened Options
  import opened Mpsc
  import opened MpscSafety
  import opened MpscTheorems

  /** Both capacities are rounded up to the least power of two that is large enough. */
  lemma RoundedUp(v: nat, p: nat)
    requires v >= 1
    ensures IsPow2(RoundUpPow2(v)) && v <= RoundUpPow2(v)
    ensures IsPow2(p) && v <= p ==> RoundUpPow2(v) <= p
  {
    if IsPow2(p) && p < RoundUpPow2(v) {
      Pow2Gap(p, RoundUpPow2(v));
    }
  }

  /** Some power of two is no less than the initial capacity and less than the double of the maximum. */
  ghost predicate Compatible(initial: nat, max: nat) {
    exists p: nat :: IsPow2(p) && initial <= p < 2 * max
  }

  /** NewMPSC panics unless two elements fit to begin with, four in the end, and the capacities are compatible. */
  lemma CreateExactly(initial: nat, max: nat)
    requires initial <= 0x8000_0000 && max <= 0x8000_0000
    ensures Create(initial, max).Some? <==> initial >= 2 && max >= 4 && Compatible(initial, max)
  {
    if initial >= 2 && max >= 4 {
      var i, m := RoundUpPow2(initial), RoundUpPow2(max);
      if Compatible(initial, max) {
        var p: nat :| IsPow2(p) && initial <= p < 2 * max;
        RoundedUp(initial, p);
        if m < p {
          Pow2Gap(m, p);
        }
        assert i <= m;
      } else {
        assert IsPow2(m) && m < 2 * max;
        assert !(i <= m);
      }
    }
  }

  // ---------- The moments of a run ----------

  /** The state before action i. */
  function Moment(q: State, actions: seq<Action>, i: nat): State
    requires i <= |actions|
  {
    Run(q, actions[..i])
  }

  lemma {:induction false} RunSplit(s: State, a: seq<Action>, b: seq<Action>)
    ensures Run(s, a + b) == Run(Run(s, a), b)
    decreases |a|
  {
    hide Step;
    if a == [] {
      assert a + b == b;
    } else {
      assert (a + b)[1..] == a[1..] + b;
      RunSplit(Step(s, a[0]), a[1..], b);
    }
  }

  lemma Next(q: State, actions: seq<Action>, i: nat)
    requires i < |actions|
    ensures Moment(q, actions, i + 1) == Step(Moment(q, actions, i), actions[i])
  {
    hide Step;
    var s := Moment(q, actions, i);
    assert actions[..i + 1] == actions[..i] + [actions[i]];
    RunSplit(q, actions[..i], [actions[i]]);
    assert Run(s, [actions[i]]) == Step(s, actions[i]);
  }

  lemma Fronts(q: State, actions: seq<Action>)
    requires actions != []
    ensures forall i :: 0 <= i < |actions| ==> Moment(q, actions[..|actions| - 1], i) == Moment(q, actions, i)
  {
    forall i | 0 <= i < |actions| ensures Moment(q, actions[..|actions| - 1], i) == Moment(q, actions, i) {
      assert actions[..|actions| - 1][..i] == actions[..i];
    }
  }

  lemma Sound(q: State, actions: seq<Action>, i: nat)
    requires Inv(q) && i <= |actions|
    ensures Inv(Moment(q, actions, i)) && Moment(q, actions, i).maxQ == q.maxQ
  {
    hide Inv;
    RunOk(q, actions[..i]);
    RunKeepsMax(q, actions[..i]);
  }

  // ---------- Nobody inside a call ----------

  /** No producer and no consumer is inside a call. */
  ghost predicate Resting(s: State) {
    CDone(s.cons) && forall t :: t in s.prod ==> Done(s.prod[t])
  }

  /** The resize lock is taken by a producer that is resizing. */
  ghost predicate LockTaken(s: State) {
    s.pIdx % 2 == 1 ==> exists t :: t in s.prod && Growing(s.prod[t])
  }

  lemma LockStep(s: State, a: Action)
    requires Inv(s) && LockTaken(s)
    ensures LockTaken(Step(s, a))
  {
    hide Inv;
    var s' := Step(s, a);
    if s'.pIdx % 2 == 1 {
      if a.Produce? {
        ProducerLock(s, a.t);
      } else if a.Consume? {
        ConsumerLock(s);
      } else {
        var t :| t in s.prod && Growing(s.prod[t]);
        assert t in s'.prod && s'.prod[t] == s.prod[t];
      }
    }
  }

  lemma ConsumerLock(s: State)
    ensures ConsumeStep(s).pIdx == s.pIdx && ConsumeStep(s).prod == s.prod
  {
  }

  lemma ProducerLock(s: State, t: nat)
    requires Inv(s) && LockTaken(s) && ProduceStep(s, t).pIdx % 2 == 1
    ensures var s' := ProduceStep(s, t); exists u :: u in s'.prod && Growing(s'.prod[u])
  {
    hide Inv, LockTaken, ProduceStep;
    var s' := ProduceStep(s, t);
    if t in s.prod && Growing(s.prod[t]) {
      GrowerGoesOn(s, t);
    } else if s.pIdx % 2 == 1 {
      Taken(s, s', t);
    } else {
      Takes(s, t);
    }
  }

  lemma Taken(s: State, s': State, t: nat)
    requires LockTaken(s) && s.pIdx % 2 == 1 && !(t in s.prod && Growing(s.prod[t])) && s' == ProduceStep(s, t)
    ensures exists u :: u in s'.prod && Growing(s'.prod[u])
  {
    var u :| u in s.prod && Growing(s.prod[u]);
    OthersStay(s, t, u);
  }

  lemma OthersStay(s: State, t: nat, u: nat)
    requires u in s.prod && u != t
    ensures u in ProduceStep(s, t).prod && ProduceStep(s, t).prod[u] == s.prod[u]
  {
    hide GrowStep, PushStep, SlowStep;
    if PcOf(s, t).SlowDecide? {
      SlowOwn(s, t);
    } else {
      PushOwn(s, t);
      GrowOwn(s, t);
    }
  }

  lemma SlowOwn(s: State, t: nat)
    requires PcOf(s, t).SlowDecide?
    ensures forall u :: u in s.prod && u != t ==> u in SlowStep(s, t, PcOf(s, t)).prod && SlowStep(s, t, PcOf(s, t)).prod[u] == s.prod[u]
  {
  }

  lemma PushOwn(s: State, t: nat)
    requires !PcOf(s, t).SlowDecide?
    ensures forall u :: u in s.prod && u != t ==> u in PushStep(s, t, PcOf(s, t)).prod && PushStep(s, t, PcOf(s, t)).prod[u] == s.prod[u]
  {
  }

  lemma GrowOwn(s: State, t: nat)
    ensures forall u :: u in s.prod && u != t ==> u in GrowStep(s, t, PcOf(s, t)).prod && GrowStep(s, t, PcOf(s, t)).prod[u] == s.prod[u]
  {
  }

  lemma GrowerGoesOn(s: State, t: nat)
    requires Inv(s) && t in s.prod && Growing(s.prod[t]) && ProduceStep(s, t).pIdx % 2 == 1
    ensures t in ProduceStep(s, t).prod && Growing(ProduceStep(s, t).prod[t])
  {
    hide Inv;
    EvenTarget(s, t);
    ProduceOk(s, t);
    NotCrashed(ProduceStep(s, t), t);
    GrowerMoves(s, t);
  }

  lemma GrowerMoves(s: State, t: nat)
    requires t in s.prod && Growing(s.prod[t]) && s.prod[t].p % 2 == 0
    ensures var s' := ProduceStep(s, t);
      t in s'.prod && (Growing(s'.prod[t]) || s'.prod[t].Crashed? || s'.pIdx % 2 == 0)
  {
    hide PushStep, SlowStep;
  }

  lemma EvenTarget(s: State, t: nat)
    requires Inv(s) && t in s.prod && Growing(s.prod[t])
    ensures s.prod[t].p % 2 == 0
  {
    assert PcOk(s, s.prod[t]);
  }

  /** Only the CAS on an even index takes the lock. */
  lemma Takes(s: State, t: nat)
    requires s.pIdx % 2 == 0 && ProduceStep(s, t).pIdx % 2 == 1 && !(t in s.prod && Growing(s.prod[t]))
    ensures t in ProduceStep(s, t).prod && Growing(ProduceStep(s, t).prod[t])
  {
  }

  lemma {:induction false} LockRun(s: State, actions: seq<Action>)
    requires Inv(s) && LockTaken(s)
    ensures LockTaken(Run(s, actions))
    decreases |actions|
  {
    hide Inv, Step, LockTaken;
    if actions != [] {
      LockStep(s, actions[0]);
      StepOk(s, actions[0]);
      LockRun(Step(s, actions[0]), actions[1..]);
    }
  }

  lemma NewQueue(initial: nat, max: nat)
    requires initial <= 0x8000_0000 && max <= 0x8000_0000 && Create(initial, max).Some?
    ensures var q := Create(initial, max).value; Inv(q) && LockTaken(q) && q.maxQ == 2 * RoundUpPow2(max) && q.log == q.popped == []
  {
    InitOk(RoundUpPow2(initial), RoundUpPow2(max));
  }

  lemma RestingIndices(s: State)
    requires Inv(s) && LockTaken(s) && Resting(s)
    ensures s.pIdx % 2 == 0 && s.cIdx == 2 * |s.popped| && Settled(s) && |s.popped| <= |s.log|
    ensures forall t :: t in s.prod ==> !s.prod[t].Crashed?
  {
    hide Data;
    forall t | t in s.prod ensures !s.prod[t].Crashed? && !Growing(s.prod[t]) {
      assert PcOk(s, s.prod[t]);
    }
  }

  /**
    Whatever happened since the queue was made, a push by a caller who is alone is refused if and only if the queue
    holds the requested maximum, rounded up; otherwise its value is the last one of the queue.
  */
  lemma PushFromNew(initial: nat, max: nat, actions: seq<Action>, t: nat, v: Value, fuel: nat)
    requires initial <= 0x8000_0000 && max <= 0x8000_0000 && Create(initial, max).Some? && fuel >= 16
    requires Resting(Run(Create(initial, max).value, actions))
    ensures var s := Run(Create(initial, max).value, actions); var s' := PushAlone(s, t, v, fuel);
      && t in s'.prod && s'.popped == s.popped
      && (s'.prod[t].Refused? <==> |s.log| - |s.popped| == RoundUpPow2(max))
      && (s'.prod[t].Refused? ==> s'.log == s.log)
      && (!s'.prod[t].Refused? ==> s'.prod[t] == Pushed(v, |s.log|) && s'.log == s.log + [v])
  {
    hide Inv, PushAlone;
    var q := Create(initial, max).value;
    NewQueue(initial, max);
    RunOk(q, actions);
    RunKeepsMax(q, actions);
    LockRun(q, actions);
    var s := Run(q, actions);
    RestingIndices(s);
    EveryRun(initial, max, actions);
    PushAloneOk(s, t, v, fuel);
  }

  /** And a pop by a consumer who is alone takes the oldest value, or answers that there is none exactly if there is none. */
  lemma PopFromNew(initial: nat, max: nat, actions: seq<Action>, fuel: nat)
    requires initial <= 0x8000_0000 && max <= 0x8000_0000 && Create(initial, max).Some? && fuel >= 10
    requires Resting(Run(Create(initial, max).value, actions))
    ensures var s := Run(Create(initial, max).value, actions); var s' := PopAlone(s, fuel);
      && s'.log == s.log && |s.popped| <= |s.log|
      && (|s.popped| == |s.log| ==> s'.cons.Empty? && s'.popped == s.popped)
      && (|s.popped| < |s.log| ==> s'.cons == Popped(s.log[|s.popped|]) && s'.popped == s.popped + [s.log[|s.popped|]])
  {
    hide Inv, PopAlone;
    var q := Create(initial, max).value;
    NewQueue(initial, max);
    RunOk(q, actions);
    LockRun(q, actions);
    var s := Run(q, actions);
    RestingIndices(s);
    PopAloneOk(s, fuel);
  }

  // ---------- What an answer says ----------

  /** Positions given back by the consumer: those taken, but for one it is about to give back. */
  function GivenBack(s: State): nat {
    s.cIdx / 2
  }

  /** Before action i the call of producer t read the consumer's index while every one of `capacity` positions was reserved, and it has met nothing since. */
  ghost predicate FullAt(q: State, actions: seq<Action>, t: nat, capacity: nat, i: nat) {
    && i < |actions| && actions[i] == Produce(t)
    && (var s := Moment(q, actions, i);
        && PcOf(s, t).SlowLoad? && |s.log| == GivenBack(s) + capacity
        && (|s.popped| == GivenBack(s) || (s.cons.CAdvance? && |s.popped| == GivenBack(s) + 1)))
    && forall k :: i < k <= |actions| ==> AfterLook(PcOf(Moment(q, actions, k), t))
  }

  predicate AfterLook(pc: Pc) {
    pc.SlowDecide? || pc.Refused?
  }

  predicate SawFull(pc: Pc) {
    (pc.SlowDecide? && pc.wasFull) || pc.Refused?
  }

  lemma {:induction false} SawFullAt(q: State, actions: seq<Action>, t: nat)
    requires Inv(q) && SawFull(PcOf(Moment(q, actions, |actions|), t)) && q.prod == map[]
    ensures exists i :: FullAt(q, actions, t, q.maxQ / 2, i)
    decreases |actions|
  {
    hide Inv, Step, Run;
    if actions == [] {
      Nothing(q);
    } else {
      var n := |actions| - 1;
      var front := actions[..n];
      Fronts(q, actions);
      Next(q, actions, n);
      Sound(q, actions, n);
      Sound(q, actions, n + 1);
      var s := Moment(q, actions, n);
      assert actions[..n + 1] == actions;
      LookStep(s, actions[n], t);
      if SawFull(PcOf(s, t)) {
        SawFullAt(q, front, t);
        var i :| FullAt(q, front, t, q.maxQ / 2, i);
        assert FullAt(q, actions, t, q.maxQ / 2, i);
      } else {
        assert FullAt(q, actions, t, q.maxQ / 2, n);
      }
    }
  }

  lemma Nothing(q: State)
    ensures Run(q, []) == q
  {
  }

  /** A call has seen a full queue because it had before, or because it looks now. */
  lemma LookStep(s: State, a: Action, t: nat)
    requires Inv(s) && Inv(Step(s, a)) && SawFull(PcOf(Step(s, a), t))
    ensures SawFull(PcOf(s, t)) || (a == Produce(t) && PcOf(s, t).SlowLoad? && |s.log| == GivenBack(s) + s.maxQ / 2)
    ensures |s.popped| == GivenBack(s) || (s.cons.CAdvance? && |s.popped| == GivenBack(s) + 1)
  {
    IndexParity(s);
    if a == Produce(t) {
      LookNow(s, t);
    } else {
      hide Inv;
      LookOther(s, a, t);
    }
  }

  lemma IndexParity(s: State)
    requires Inv(s)
    ensures s.maxQ % 2 == 0 && s.cIdx % 2 == 0 && (s.pIdx % 2 == 0 ==> s.pIdx == 2 * |s.log|)
    ensures |s.popped| == GivenBack(s) || (s.cons.CAdvance? && |s.popped| == GivenBack(s) + 1)
  {
    hide Data, Producers, Consumer;
  }

  lemma LookNow(s: State, t: nat)
    requires Inv(s) && SawFull(PcOf(ProduceStep(s, t), t))
    ensures SawFull(PcOf(s, t)) || (PcOf(s, t).SlowLoad? && |s.log| == GivenBack(s) + s.maxQ / 2)
  {
    hide Inv, GrowStep, PushStep, SlowStep;
    IndexParity(s);
    if t in s.prod {
      PcAt(s, t);
      if Growing(s.prod[t]) || s.prod[t].GrowJump? {
        NeverRefused(s, t);
      }
    }
    if PcOf(s, t).SlowDecide? {
      SlowLooks(s, t);
    } else if !SawFull(PcOf(s, t)) {
      PushLooks(s, t);
    }
  }

  lemma SlowLooks(s: State, t: nat)
    requires PcOf(s, t).SlowDecide? && SawFull(PcOf(SlowStep(s, t, PcOf(s, t)), t))
    ensures PcOf(s, t).p >= PcOf(s, t).c + s.maxQ
  {
  }

  lemma PushLooks(s: State, t: nat)
    requires !PcOf(s, t).SlowDecide? && !SawFull(PcOf(s, t)) && SawFull(PcOf(PushStep(s, t, PcOf(s, t)), t))
    ensures PcOf(s, t).SlowLoad? && s.pIdx == PcOf(s, t).p && PcOf(s, t).p - s.cIdx == s.maxQ
  {
  }

  lemma PcAt(s: State, t: nat)
    requires Inv(s) && t in s.prod
    ensures s.prod[t].SlowDecide? && s.prod[t].p == s.prod[t].c + s.maxQ ==> s.prod[t].wasFull
    ensures s.prod[t].SlowDecide? ==> s.prod[t].p <= s.prod[t].c + s.maxQ
    ensures s.prod[t].SlowLoad? ==> s.prod[t].p % 2 == 0
  {
    hide Data, Consumer, Indices;
    assert PcOk(s, s.prod[t]);
  }

  lemma NeverRefused(s: State, t: nat)
    requires t in s.prod && (Growing(s.prod[t]) || s.prod[t].GrowJump?)
    ensures !SawFull(PcOf(GrowStep(s, t, s.prod[t]), t))
  {
  }

  lemma LookOther(s: State, a: Action, t: nat)
    requires a != Produce(t) && SawFull(PcOf(Step(s, a), t))
    ensures PcOf(Step(s, a), t) == PcOf(s, t)
  {
    hide ConsumeStep, ProduceStep;
    match a
    case BeginPush(u, v) =>
    case Produce(u) =>
      OnlyOwn(s, u, t);
    case BeginPop =>
    case Consume =>
      ConsumerLock(s);
  }

  lemma OnlyOwn(s: State, u: nat, t: nat)
    requires u != t
    ensures PcOf(ProduceStep(s, u), t) == PcOf(s, t)
  {
  }

  /** Over every run: a push that was refused met, when it looked at the consumer's index, exactly as many reserved positions as the requested maximum, rounded up. */
  lemma RefusedWhenFull(initial: nat, max: nat, actions: seq<Action>, t: nat)
    requires initial <= 0x8000_0000 && max <= 0x8000_0000 && Create(initial, max).Some?
    requires PcOf(Run(Create(initial, max).value, actions), t).Refused?
    ensures exists i :: FullAt(Create(initial, max).value, actions, t, RoundUpPow2(max), i)
  {
    hide Inv, Run;
    var q := Create(initial, max).value;
    NewQueue(initial, max);
    assert actions[..|actions|] == actions;
    SawFullAt(q, actions, t);
  }

  /** Before action i the consumer compared the indices, and everything that had been reserved was taken; it has done nothing since. */
  ghost predicate EmptyAt(q: State, actions: seq<Action>, i: nat) {
    && i < |actions| && actions[i] == Consume
    && (var s := Moment(q, actions, i); s.cons.CCheck? && s.popped == s.log)
    && forall k :: i < k <= |actions| ==> Moment(q, actions, k).cons.Empty?
  }

  lemma {:induction false} FoundEmptyAt(q: State, actions: seq<Action>)
    requires Inv(q) && !q.cons.Empty? && Moment(q, actions, |actions|).cons.Empty?
    ensures exists i :: EmptyAt(q, actions, i)
    decreases |actions|
  {
    hide Inv, Step, Run;
    if actions == [] {
      Nothing(q);
    } else {
      var n := |actions| - 1;
      var front := actions[..n];
      Fronts(q, actions);
      Next(q, actions, n);
      Sound(q, actions, n);
      var s := Moment(q, actions, n);
      CheckStep(s, actions[n]);
      if s.cons.Empty? {
        FoundEmptyAt(q, front);
        var i :| EmptyAt(q, front, i);
        assert EmptyAt(q, actions, i);
      } else {
        assert EmptyAt(q, actions, n);
      }
    }
  }

  lemma CheckStep(s: State, a: Action)
    requires Inv(s) && Step(s, a).cons.Empty?
    ensures s.cons.Empty? || (a == Consume && s.cons.CCheck? && s.popped == s.log)
  {
    hide Inv, ProduceStep, ConsumeStep;
    AllTaken(s);
    match a
    case Produce(t) => ConsumerStays(s, t);
    case Consume => CheckNow(s);
    case _ =>
  }

  lemma AllTaken(s: State)
    requires Inv(s)
    ensures s.cons.CCheck? && s.cons.index == s.pIdx ==> s.popped == s.log
  {
    hide Data, Producers;
  }

  lemma CheckNow(s: State)
    requires ConsumeStep(s).cons.Empty?
    ensures s.cons.Empty? || (s.cons.CCheck? && s.cons.index == s.pIdx)
  {
  }

  lemma ConsumerStays(s: State, t: nat)
    ensures ProduceStep(s, t).cons == s.cons
  {
  }

  /** Over every run: a pop that answered nil compared the indices at a moment at which nothing was left to take. */
  lemma EmptyWhenEmpty(initial: nat, max: nat, actions: seq<Action>)
    requires initial <= 0x8000_0000 && max <= 0x8000_0000 && Create(initial, max).Some?
    requires Run(Create(initial, max).value, actions).cons.Empty?
    ensures exists i :: EmptyAt(Create(initial, max).value, actions, i)
  {
    hide Inv, Run;
    var q := Create(initial, max).value;
    NewQueue(initial, max);
    assert actions[..|actions|] == actions;
    FoundEmptyAt(q, actions);
  }
}
