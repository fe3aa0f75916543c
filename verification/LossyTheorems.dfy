/** What an answer of the buffer says, and what an add or a drain does when nobody is in its way. */
module LossyTheorems {
  import opened Lossy
  import opened LossySafety
  import opened Options

  // ---------- The moments of a run ----------

  /** The state before action i. */
  function Moment(q: State, actions: seq<Action>, i: nat): State
    requires i <= |actions|
  {
    Run(q, actions[..i])
  }

  lemma {:induction false} RunSplit(s: State, a: seq<Action>, b: seq<Action>)
    ensures Run(s, a + b) == Run(Run(s, a), b)
    decreases |a|
  {
    hide Step;
    if a == [] {
      assert a + b == b;
    } else {
      assert (a + b)[1..] == a[1..] + b;
      RunSplit(Step(s, a[0]), a[1..], b);
    }
  }

  lemma Next(q: State, actions: seq<Action>, i: nat)
    requires i < |actions|
    ensures Moment(q, actions, i + 1) == Step(Moment(q, actions, i), actions[i])
  {
    hide Step;
    var s := Moment(q, actions, i);
    assert actions[..i + 1] == actions[..i] + [actions[i]];
    RunSplit(q, actions[..i], [actions[i]]);
    assert Run(s, [actions[i]]) == Step(s, actions[i]);
  }

  lemma Fronts(q: State, actions: seq<Action>)
    requires actions != []
    ensures forall i :: 0 <= i < |actions| ==> Moment(q, actions[..|actions| - 1], i) == Moment(q, actions, i)
  {
    forall i | 0 <= i < |actions| ensures Moment(q, actions[..|actions| - 1], i) == Moment(q, actions, i) {
      assert actions[..|actions| - 1][..i] == actions[..i];
    }
  }

  predicate StepOf(x: Action, a: nat) {
    x.GoAdder? && x.a == a
  }

  /** An adder moves by its own steps only. */
  lemma AddersStep(s: State, x: Action, a: nat)
    requires a < |Step(s, x).adders|
    ensures if a < |s.adders| then !StepOf(x, a) ==> Step(s, x).adders[a] == s.adders[a] else Step(s, x).adders[a].pc == ALoad
  {
    hide AdderStep, DrainStep;
    match x
    case Begin =>
    case GoAdder(b, j) => if b < |s.adders| { OnlyOwn(s, b, j); }
    case BeginDrain =>
    case GoDrain => DrainKeeps(s);
  }

  lemma DrainKeeps(s: State)
    ensures DrainStep(s).adders == s.adders && DrainStep(s).arrays == s.arrays && DrainStep(s).current == s.current
  {
  }

  lemma OnlyOwn(s: State, b: nat, j: nat)
    requires b < |s.adders|
    ensures |AdderStep(s, b, j).adders| == |s.adders|
    ensures forall a :: 0 <= a < |s.adders| && a != b ==> AdderStep(s, b, j).adders[a] == s.adders[a]
  {
    hide RingStep, LookStep, AttachStep, GrowStep, InitStep;
    var pc := s.adders[b].pc;
    if InRing(pc) {
      RingOwn(s, b);
    } else if Looking(pc) {
      LookOwn(s, b, j);
    } else if Attaching(pc) {
      AttachOwn(s, b, j);
    } else if Growing(pc) {
      GrowOwn(s, b);
    } else {
      InitOwn(s, b);
    }
  }

  /** The state after a step of adder a, as far as adders are concerned. */
  predicate Own(s: State, s': State, a: nat) {
    a < |s.adders| == |s'.adders| && s'.adders == s.adders[a := s'.adders[a]]
  }

  lemma RingOwn(s: State, a: nat)
    requires a < |s.adders|
    ensures Own(s, RingStep(s, a), a)
  {
  }

  lemma LookOwn(s: State, a: nat, j: nat)
    requires a < |s.adders|
    ensures Own(s, LookStep(s, a, j), a)
  {
  }

  lemma AttachOwn(s: State, a: nat, j: nat)
    requires a < |s.adders|
    ensures Own(s, AttachStep(s, a, j), a)
  {
  }

  lemma GrowOwn(s: State, a: nat)
    requires a < |s.adders|
    ensures Own(s, GrowStep(s, a), a)
  {
  }

  lemma InitOwn(s: State, a: nat)
    requires a < |s.adders|
    ensures Own(s, InitStep(s, a), a)
  {
  }

  // ---------- What Full says ----------

  /** Before action i the adder is about to read the head of ring r, which is h. */
  ghost predicate HeadReadAt(q: State, actions: seq<Action>, a: nat, r: nat, h: nat, i: nat) {
    && i < |actions| && StepOf(actions[i], a)
    && var s := Moment(q, actions, i);
    a < |s.adders| && s.adders[a].pc.RHead? && s.adders[a].pc.r == r < |s.rings| && s.rings[r].head == h
  }

  /** Before action k it is about to read the tail, which is sixteen positions beyond. */
  ghost predicate FullSeenAt(q: State, actions: seq<Action>, a: nat, r: nat, h: nat, k: nat) {
    && k < |actions| && StepOf(actions[k], a)
    && var s := Moment(q, actions, k);
    a < |s.adders| && s.adders[a].pc.RTail? && s.adders[a].pc.r == r < |s.rings| && s.adders[a].pc.h == h && s.rings[r].tail >= h + BUFFER_SIZE
  }

  predicate ReadsTail(pc: AdderPc) {
    pc.RTail?
  }

  predicate EndsFull(pc: AdderPc) {
    pc.ADone? && pc.result.Full?
  }

  /** How an adder comes to have read a head, and to have found a ring full. */
  predicate Reads(rings: seq<Ring>, pc: AdderPc, pc': AdderPc) {
    && (ReadsTail(pc') && pc' != pc ==> pc.RHead? && pc.r == pc'.r < |rings| && rings[pc.r].head == pc'.h)
    && (EndsFull(pc') && pc' != pc ==> pc.RTail? && pc.r < |rings| && rings[pc.r].tail >= pc.h + BUFFER_SIZE)
  }

  lemma ReadStep(s: State, x: Action, a: nat)
    requires a < |s.adders|
    ensures a < |Step(s, x).adders|
    ensures Reads(s.rings, s.adders[a].pc, Step(s, x).adders[a].pc)
    ensures !StepOf(x, a) ==> Step(s, x).adders[a].pc == s.adders[a].pc
  {
    hide AdderStep, DrainStep;
    match x
    case Begin =>
    case GoAdder(b, j) =>
      if b < |s.adders| {
        OnlyOwn(s, b, j);
        if b == a {
          ReadOwn(s, a, j);
        }
      }
    case BeginDrain =>
    case GoDrain => DrainKeeps(s);
  }

  lemma ReadOwn(s: State, a: nat, j: nat)
    requires a < |s.adders|
    ensures a < |AdderStep(s, a, j).adders|
    ensures Reads(s.rings, s.adders[a].pc, AdderStep(s, a, j).adders[a].pc)
  {
    hide RingStep, LookStep, AttachStep, GrowStep, InitStep;
    var pc := s.adders[a].pc;
    if InRing(pc) {
      ReadRing(s, a);
    } else if Looking(pc) {
      ReadLook(s, a, j);
    } else if Attaching(pc) {
      ReadAttach(s, a, j);
    } else if Growing(pc) {
      ReadGrow(s, a);
    } else {
      ReadInit(s, a);
    }
  }

  lemma ReadRing(s: State, a: nat)
    requires a < |s.adders| && InRing(s.adders[a].pc)
    ensures a < |RingStep(s, a).adders|
    ensures Reads(s.rings, s.adders[a].pc, RingStep(s, a).adders[a].pc)
  {
  }

  /** The adder neither reads a head nor finds a ring full. */
  predicate NoRead(s: State, s': State, a: nat) {
    a < |s.adders| && a < |s'.adders| && !ReadsTail(s'.adders[a].pc) && (EndsFull(s'.adders[a].pc) ==> s'.adders[a].pc == s.adders[a].pc)
  }

  lemma ReadLook(s: State, a: nat, j: nat)
    requires a < |s.adders| && Looking(s.adders[a].pc)
    ensures NoRead(s, LookStep(s, a, j), a)
  {
  }

  lemma ReadAttach(s: State, a: nat, j: nat)
    requires a < |s.adders| && Attaching(s.adders[a].pc)
    ensures NoRead(s, AttachStep(s, a, j), a)
  {
  }

  lemma ReadGrow(s: State, a: nat)
    requires a < |s.adders| && Growing(s.adders[a].pc)
    ensures NoRead(s, GrowStep(s, a), a)
  {
  }

  lemma ReadInit(s: State, a: nat)
    requires a < |s.adders| && !InRing(s.adders[a].pc)
    ensures NoRead(s, InitStep(s, a), a)
  {
  }

  lemma {:induction false} HeadWasRead(q: State, actions: seq<Action>, a: nat)
    requires var s := Moment(q, actions, |actions|); a < |s.adders| && ReadsTail(s.adders[a].pc)
    requires q.adders == []
    ensures var pc := Moment(q, actions, |actions|).adders[a].pc;
      exists i :: HeadReadAt(q, actions, a, pc.r, pc.h, i)
    decreases |actions|
  {
    hide Step, Run;
    if actions == [] {
      Empty(q);
    } else {
      var n := |actions| - 1;
      var front := actions[..n];
      Fronts(q, actions);
      Next(q, actions, n);
      var s := Moment(q, actions, n);
      AddersStep(s, actions[n], a);
      ReadStep(s, actions[n], a);
      var pc := Step(s, actions[n]).adders[a].pc;
      if s.adders[a].pc == pc {
        HeadWasRead(q, front, a);
        var i :| HeadReadAt(q, front, a, pc.r, pc.h, i);
        assert HeadReadAt(q, actions, a, pc.r, pc.h, i);
      } else {
        assert HeadReadAt(q, actions, a, pc.r, pc.h, n);
      }
    }
  }

  lemma Empty(q: State)
    ensures Run(q, []) == q
  {
  }

  /** Over every run: an add that answers Full found, beyond the head it had read before, sixteen reservations in its ring. */
  lemma {:induction false} FullWhenFull(maxLen: nat, actions: seq<Action>, a: nat)
    requires var s := Moment(New(maxLen), actions, |actions|); a < |s.adders| && EndsFull(s.adders[a].pc)
    ensures exists r, h, i, k ::
      HeadReadAt(New(maxLen), actions, a, r, h, i) && FullSeenAt(New(maxLen), actions, a, r, h, k) && i < k
    decreases |actions|
  {
    hide Step, Run;
    var q := New(maxLen);
    if actions == [] {
      Empty(q);
    } else {
      var n := |actions| - 1;
      var front := actions[..n];
      Fronts(q, actions);
      Next(q, actions, n);
      var s := Moment(q, actions, n);
      AddersStep(s, actions[n], a);
      ReadStep(s, actions[n], a);
      if EndsFull(s.adders[a].pc) {
        FullWhenFull(maxLen, front, a);
        var r, h, i, k :| HeadReadAt(q, front, a, r, h, i) && FullSeenAt(q, front, a, r, h, k) && i < k;
        assert HeadReadAt(q, actions, a, r, h, i) && FullSeenAt(q, actions, a, r, h, k);
      } else {
        var pc := s.adders[a].pc;
        HeadWasRead(q, front, a);
        var i :| HeadReadAt(q, front, a, pc.r, pc.h, i);
        assert HeadReadAt(q, actions, a, pc.r, pc.h, i) && FullSeenAt(q, actions, a, pc.r, pc.h, n);
      }
    }
  }

  // ---------- What Failed says ----------

  /** The number of rounds of expandOrRetry that have begun. */
  function Rounds(pc: AdderPc): nat {
    match pc
    case ELoad(x) => x.attempt
    case RHead(_, Slow(_, x)) => x.attempt + 1
    case RTail(_, _, Slow(_, x)) => x.attempt + 1
    case RCas(_, _, _, Slow(_, x)) => x.attempt + 1
    case EBuffer(_, x) => x.attempt + 1
    case BBusy(x) => x.attempt + 1
    case BCas(x) => x.attempt + 1
    case BLoad(x) => x.attempt + 1
    case BCheck(_, x) => x.attempt + 1
    case BAttach(_, _, x) => x.attempt + 1
    case BFree(_, x) => x.attempt + 1
    case FStale(_, x) => x.attempt + 1
    case FBusy(_, x) => x.attempt + 1
    case FCas(_, x) => x.attempt + 1
    case FCheck(_, x) => x.attempt + 1
    case FCopy(_, _, x) => x.attempt + 1
    case FFree(x) => x.attempt + 1
    case IBusy(x) => x.attempt + 1
    case ISame(x) => x.attempt + 1
    case ICas(x) => x.attempt + 1
    case ICheck(x) => x.attempt + 1
    case IStore(x) => x.attempt + 1
    case IFree(_, x) => x.attempt + 1
    case ADone(Failed) => ATTEMPTS
    case _ => 0
  }

  /** Before action i the adder begins its round n. */
  ghost predicate RoundAt(q: State, actions: seq<Action>, a: nat, n: nat, i: nat) {
    && i < |actions| && StepOf(actions[i], a)
    && var s := Moment(q, actions, i);
    a < |s.adders| && s.adders[a].pc.ELoad? && s.adders[a].pc.x.attempt == n
  }

  /** The next round begins only at the top of the loop. */
  predicate OneRound(s: State, s': State, a: nat) {
    && a < |s.adders| && a < |s'.adders|
    && (Rounds(s'.adders[a].pc) <= Rounds(s.adders[a].pc)
        || (s.adders[a].pc.ELoad? && Rounds(s'.adders[a].pc) == Rounds(s.adders[a].pc) + 1))
  }

  lemma RoundStep(s: State, a: nat, j: nat)
    requires a < |s.adders|
    ensures OneRound(s, AdderStep(s, a, j), a)
  {
    hide RingStep, LookStep, AttachStep, GrowStep, InitStep, OneRound;
    var pc := s.adders[a].pc;
    if InRing(pc) {
      RingRound(s, a);
    } else if Looking(pc) {
      LookRound(s, a, j);
    } else if Attaching(pc) {
      AttachRound(s, a, j);
    } else if Growing(pc) {
      GrowRound(s, a);
    } else {
      InitRound(s, a);
    }
  }

  lemma RingRound(s: State, a: nat)
    requires a < |s.adders| && InRing(s.adders[a].pc)
    ensures OneRound(s, RingStep(s, a), a)
  {
  }

  lemma LookRound(s: State, a: nat, j: nat)
    requires a < |s.adders| && Looking(s.adders[a].pc)
    ensures OneRound(s, LookStep(s, a, j), a)
  {
  }

  lemma AttachRound(s: State, a: nat, j: nat)
    requires a < |s.adders| && Attaching(s.adders[a].pc)
    ensures OneRound(s, AttachStep(s, a, j), a)
  {
  }

  lemma GrowRound(s: State, a: nat)
    requires a < |s.adders| && Growing(s.adders[a].pc)
    ensures OneRound(s, GrowStep(s, a), a)
  {
  }

  lemma InitRound(s: State, a: nat)
    requires a < |s.adders| && !InRing(s.adders[a].pc) && !Looking(s.adders[a].pc) && !Attaching(s.adders[a].pc) && !Growing(s.adders[a].pc)
    ensures OneRound(s, InitStep(s, a), a)
  {
  }

  lemma {:induction false} RoundsBegan(maxLen: nat, actions: seq<Action>, a: nat, n: nat)
    requires var s := Moment(New(maxLen), actions, |actions|); a < |s.adders| && n < Rounds(s.adders[a].pc)
    ensures exists i :: RoundAt(New(maxLen), actions, a, n, i)
    decreases |actions|
  {
    hide Step, Run, AdderStep;
    var q := New(maxLen);
    if actions == [] {
      Empty(q);
    } else {
      var last := |actions| - 1;
      var front := actions[..last];
      Fronts(q, actions);
      Next(q, actions, last);
      var s := Moment(q, actions, last);
      AddersStep(s, actions[last], a);
      if a < |s.adders| {
        if n < Rounds(s.adders[a].pc) {
          RoundsBegan(maxLen, front, a, n);
          var i :| RoundAt(q, front, a, n, i);
          assert RoundAt(q, actions, a, n, i);
        } else {
          OwnRound(s, actions[last], a);
          assert RoundAt(q, actions, a, n, last);
        }
      }
    }
  }

  lemma OwnRound(s: State, x: Action, a: nat)
    requires a < |s.adders|
    ensures StepOf(x, a) ==> OneRound(s, Step(s, x), a)
  {
    hide AdderStep;
    if StepOf(x, a) {
      RoundStep(s, a, x.j);
    }
  }

  /** Over every run: an add that answers Failed has been through all of its rounds. */
  lemma FailedAfterRounds(maxLen: nat, actions: seq<Action>, a: nat, n: nat)
    requires var s := Moment(New(maxLen), actions, |actions|); a < |s.adders| && s.adders[a].pc == ADone(Failed)
    requires n < ATTEMPTS
    ensures exists i :: RoundAt(New(maxLen), actions, a, n, i)
  {
    RoundsBegan(maxLen, actions, a, n);
  }

  // ---------- The arrays double ----------

  function Pow2(n: nat): (p: nat)
    ensures p > 0
  {
    if n == 0 then 1 else 2 * Pow2(n - 1)
  }

  /** The adder may still double array bs. */
  predicate MayGrow(pc: AdderPc) {
    pc.FBusy? || pc.FCas? || pc.FCheck? || pc.FCopy?
  }

  /** Each array is twice as long as the one before, the last is the current one, and one that is doubled is shorter than the limit. */
  ghost predicate Lengths(s: State) {
    && (forall b :: 0 <= b < |s.arrays| ==> |s.arrays[b]| == Pow2(b))
    && (forall b :: 0 <= b < |s.arrays| - 1 ==> |s.arrays[b]| < s.maxLen)
    && (s.current.Some? ==> s.current.value == |s.arrays| - 1)
    && (forall a :: 0 <= a < |s.adders| && MayGrow(s.adders[a].pc) ==>
          s.adders[a].pc.bs < |s.arrays| && |s.arrays[s.adders[a].pc.bs]| < s.maxLen)
  }

  /** A step that neither makes nor replaces an array. */
  lemma LengthsKept(s: State, s': State, a: nat)
    requires Lengths(s) && Own(s, s', a) && s'.maxLen == s.maxLen && s'.current == s.current
    requires |s'.arrays| == |s.arrays| && forall b :: 0 <= b < |s.arrays| ==> |s'.arrays[b]| == |s.arrays[b]|
    requires MayGrow(s'.adders[a].pc) ==> s'.adders[a].pc.bs < |s.arrays| && |s.arrays[s'.adders[a].pc.bs]| < s.maxLen
    ensures Lengths(s')
  {
    hide Pow2;
    assert forall b :: 0 <= b < |s'.adders| && b != a ==> s'.adders[b] == s.adders[b];
  }

  lemma LengthsStep(s: State, a: nat, j: nat)
    requires Inv(s) && Lengths(s) && a < |s.adders|
    ensures Lengths(AdderStep(s, a, j))
  {
    hide Inv, RingStep, LookStep, AttachStep, GrowStep, InitStep, Lengths, Own;
    var pc := s.adders[a].pc;
    Parts(s);
    if InRing(pc) {
      RingOwn(s, a);
      RingArrays(s, a);
      LengthsKept(s, RingStep(s, a), a);
    } else if Looking(pc) {
      LookOwn(s, a, j);
      LookArrays(s, a, j);
      LengthsKept(s, LookStep(s, a, j), a);
    } else if Attaching(pc) {
      AttachOwn(s, a, j);
      AttachArrays(s, a, j);
      LengthsKept(s, AttachStep(s, a, j), a);
    } else if Growing(pc) {
      GrowOwn(s, a);
      GrowLengths(s, a);
    } else {
      InitOwn(s, a);
      InitLengths(s, a);
    }
  }

  /** The arrays, as to number and length, and the limit stay. */
  predicate SameLengths(s: State, s': State) {
    && s'.maxLen == s.maxLen && s'.current == s.current && |s'.arrays| == |s.arrays|
    && forall b :: 0 <= b < |s.arrays| ==> |s'.arrays[b]| == |s.arrays[b]|
  }

  lemma RingArrays(s: State, a: nat)
    requires a < |s.adders| && InRing(s.adders[a].pc)
    ensures SameLengths(s, RingStep(s, a)) && a < |RingStep(s, a).adders| && !MayGrow(RingStep(s, a).adders[a].pc)
  {
  }

  lemma LookArrays(s: State, a: nat, j: nat)
    requires a < |s.adders| && Looking(s.adders[a].pc)
    ensures SameLengths(s, LookStep(s, a, j)) && a < |LookStep(s, a, j).adders| && !MayGrow(LookStep(s, a, j).adders[a].pc)
  {
  }

  lemma AttachArrays(s: State, a: nat, j: nat)
    requires a < |s.adders| && Attaching(s.adders[a].pc)
    ensures SameLengths(s, AttachStep(s, a, j)) && a < |AttachStep(s, a, j).adders| && !MayGrow(AttachStep(s, a, j).adders[a].pc)
  {
  }

  lemma GrowLengths(s: State, a: nat)
    requires Inv(s) && Lengths(s) && a < |s.adders| && Growing(s.adders[a].pc)
    ensures Lengths(GrowStep(s, a))
  {
    hide Inv, Lengths, GrowStep;
    Parts(s);
    AdderAt(s, a);
    AdderInRange(s, a);
    var pc := s.adders[a].pc;
    if pc.FCopy? && |pc.copy| >= |s.arrays[pc.bs]| {
      Doubles(s, a);
    } else {
      GrowOwn(s, a);
      GrowKeeps(s, a);
      LengthsKept(s, GrowStep(s, a), a);
    }
  }

  lemma GrowKeeps(s: State, a: nat)
    requires Lengths(s) && ArraysOk(s.rings, s.arrays, s.current) && a < |s.adders| && Growing(s.adders[a].pc)
    requires s.adders[a].pc.FCopy? ==> s.adders[a].pc.bs < |s.arrays| && |s.adders[a].pc.copy| < |s.arrays[s.adders[a].pc.bs]|
    ensures var s' := GrowStep(s, a);
      && SameLengths(s, s') && a < |s'.adders|
      && (MayGrow(s'.adders[a].pc) ==> s'.adders[a].pc.bs < |s.arrays| && |s.arrays[s'.adders[a].pc.bs]| < s.maxLen)
  {
    hide Pow2;
  }

  lemma Doubles(s: State, a: nat)
    requires Lengths(s) && a < |s.adders| && s.adders[a].pc.FCopy?
    requires var pc := s.adders[a].pc; s.current == Some(pc.bs) && pc.bs < |s.arrays| && pc.copy == s.arrays[pc.bs]
    ensures Lengths(GrowStep(s, a))
  {
    var s' := GrowStep(s, a);
    var n := |s.arrays|;
    assert |s'.arrays[n]| == 2 * |s.arrays[n - 1]| && Pow2(n) == 2 * Pow2(n - 1);
    hide Pow2;
    assert forall b :: 0 <= b < |s'.adders| && b != a ==> s'.adders[b] == s.adders[b];
  }

  lemma InitLengths(s: State, a: nat)
    requires Inv(s) && Lengths(s) && a < |s.adders|
    requires var pc := s.adders[a].pc; !InRing(pc) && !Looking(pc) && !Attaching(pc) && !Growing(pc)
    ensures Lengths(InitStep(s, a))
  {
    hide Inv, Lengths, InitStep;
    Parts(s);
    AdderAt(s, a);
    if s.adders[a].pc.IStore? {
      FirstLength(s, a);
    } else {
      InitOwn(s, a);
      InitKeeps(s, a);
      LengthsKept(s, InitStep(s, a), a);
    }
  }

  lemma InitKeeps(s: State, a: nat)
    requires a < |s.adders| && !s.adders[a].pc.IStore? && !MayGrow(s.adders[a].pc)
    ensures SameLengths(s, InitStep(s, a)) && a < |InitStep(s, a).adders| && !MayGrow(InitStep(s, a).adders[a].pc)
  {
  }

  lemma FirstLength(s: State, a: nat)
    requires Lengths(s) && ArraysOk(s.rings, s.arrays, s.current) && s.current == None && a < |s.adders| && s.adders[a].pc.IStore?
    ensures Lengths(InitStep(s, a))
  {
    assert Pow2(0) == 1;
    hide Pow2;
    var s' := InitStep(s, a);
    assert forall b :: 0 <= b < |s'.adders| && b != a ==> s'.adders[b] == s.adders[b];
  }

  lemma LengthsAction(s: State, x: Action)
    requires Inv(s) && Lengths(s)
    ensures Lengths(Step(s, x))
  {
    hide Inv, AdderStep, Pow2;
    match x
    case Begin =>
    case GoAdder(a, j) => if a < |s.adders| { LengthsStep(s, a, j); }
    case BeginDrain =>
    case GoDrain => DrainKeeps(s);
  }

  lemma {:induction false} LengthsRun(s: State, actions: seq<Action>)
    requires Inv(s) && Lengths(s)
    ensures Lengths(Run(s, actions))
    decreases |actions|
  {
    hide Inv, Lengths, Step;
    if actions != [] {
      StepOk(s, actions[0]);
      LengthsAction(s, actions[0]);
      LengthsRun(Step(s, actions[0]), actions[1..]);
    }
  }

  /** Over every run: the n-th array has 2^n places, the last one is the current one, and only one shorter than the limit was ever doubled. */
  lemma ArraysDouble(maxLen: nat, actions: seq<Action>, n: nat)
    ensures var s := Run(New(maxLen), actions);
      && (n < |s.arrays| ==> |s.arrays[n]| == Pow2(n) && (n > 0 ==> Pow2(n - 1) < maxLen))
      && (s.current.Some? <==> s.arrays != []) && (s.current.Some? ==> s.current.value == |s.arrays| - 1)
  {
    InitOk(maxLen);
    RunOk(New(maxLen), actions);
    LengthsRun(New(maxLen), actions);
    RunLimit(New(maxLen), actions);
    var s := Run(New(maxLen), actions);
    Parts(s);
    hide Pow2, RingsOk, AddersOk, DrainOk;
    assert 0 < n < |s.arrays| ==> |s.arrays[n - 1]| < s.maxLen;
  }

  lemma {:induction false} RunLimit(s: State, actions: seq<Action>)
    ensures Run(s, actions).maxLen == s.maxLen
    decreases |actions|
  {
    hide Step;
    if actions != [] {
      SameLimit(s, actions[0]);
      RunLimit(Step(s, actions[0]), actions[1..]);
    }
  }

  lemma SameLimit(s: State, x: Action)
    ensures Step(s, x).maxLen == s.maxLen
  {
    hide AdderStep, DrainStep;
    match x
    case Begin =>
    case GoAdder(a, j) => if a < |s.adders| { AdderLimit(s, a, j); }
    case BeginDrain =>
    case GoDrain => DrainLimit(s);
  }

  lemma DrainLimit(s: State)
    ensures DrainStep(s).maxLen == s.maxLen
  {
  }

  lemma AdderLimit(s: State, a: nat, j: nat)
    requires a < |s.adders|
    ensures AdderStep(s, a, j).maxLen == s.maxLen
  {
    hide RingStep, LookStep, AttachStep, GrowStep, InitStep;
    var pc := s.adders[a].pc;
    if InRing(pc) {
      RingArrays(s, a);
    } else if Looking(pc) {
      LookArrays(s, a, j);
    } else if Attaching(pc) {
      AttachArrays(s, a, j);
    } else if Growing(pc) {
      GrowLimit(s, a);
    } else {
      InitLimit(s, a);
    }
  }

  lemma GrowLimit(s: State, a: nat)
    requires a < |s.adders|
    ensures GrowStep(s, a).maxLen == s.maxLen
  {
  }

  lemma InitLimit(s: State, a: nat)
    requires a < |s.adders|
    ensures InitStep(s, a).maxLen == s.maxLen
  {
  }
}
