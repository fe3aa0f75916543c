/** One add, or one drain, with nobody else about. */
module LossyAlone {
  import opened Lossy
  import opened LossySafety
  import opened Options

  // ---------- An add ----------

  /** Adder a takes up to `fuel` steps, until its call returns. */
  function Finish(s: State, a: nat, j: nat, fuel: nat): State
    requires a < |s.adders|
    decreases fuel
  {
    if fuel == 0 || s.adders[a].pc.ADone? then s
    else
      var s' := AdderStep(s, a, j);
      if a < |s'.adders| then Finish(s', a, j, fuel - 1) else s
  }

  /** An add with token j. */
  function AddAlone(s: State, j: nat, fuel: nat): State {
    Finish(Step(s, Begin), |s.adders|, j, fuel)
  }

  /** The ring that the token points to. */
  function Shown(s: State, j: nat): Option<nat> {
    if s.current.Some? then Place(s, s.current.value, j) else None
  }

  /** The state after an add that stored its element in ring r, which was there, or is new and the last one. */
  ghost predicate StoredIn(s: State, s': State, r: nat) {
    var a := |s.adders|;
    && a < |s'.adders| && s'.adders[a].pc == ADone(Success) && s'.adders[..a] == s.adders
    && |s.rings| <= |s'.rings| <= |s.rings| + 1 && r < |s'.rings|
    && s'.rings[r].log == (if r < |s.rings| then s.rings[r].log else []) + [a]
    && s'.rings[r].delivered == (if r < |s.rings| then s.rings[r].delivered else [])
    && s'.rings[r].head == (if r < |s.rings| then s.rings[r].head else 0)
    && (forall q :: 0 <= q < |s.rings| && q != r ==> s'.rings[q] == s.rings[q])
    && (|s'.rings| > |s.rings| ==> r == |s.rings|)
    && s'.busy == s.busy && s'.drain == s.drain
  }

  /** The state in which an add has just been begun and has come to pc. */
  function Begun(s: State, pc: AdderPc): State {
    s.(adders := s.adders + [Adder(pc, None)])
  }

  lemma BegunAt(s: State)
    ensures Step(s, Begin) == Begun(s, ALoad)
    ensures forall x, y :: Goto(Begun(s, x), |s.adders|, y) == Begun(s, y)
  {
    forall x, y ensures Goto(Begun(s, x), |s.adders|, y) == Begun(s, y) {
      assert Goto(Begun(s, x), |s.adders|, y).adders == Begun(s, y).adders;
    }
  }

  /** A step that only reads, of the add just begun. */
  lemma BegunReads(s: State, j: nat, fuel: nat, x: AdderPc, y: AdderPc)
    requires !x.ADone? && fuel > 0 && AdderStep(Begun(s, x), |s.adders|, j) == Begun(s, y)
    ensures Finish(Begun(s, x), |s.adders|, j, fuel) == Finish(Begun(s, y), |s.adders|, j, fuel - 1)
  {
    hide AdderStep;
  }

  // ----- The ring is there -----

  lemma RingCase(s: State, j: nat, fuel: nat, r: nat)
    requires Inv(s) && Shown(s, j) == Some(r) && fuel >= 6
    ensures r < |s.rings|
    ensures s.rings[r].tail - s.rings[r].head == BUFFER_SIZE ==> AddAlone(s, j, fuel) == Begun(s, ADone(Full))
    ensures s.rings[r].tail - s.rings[r].head < BUFFER_SIZE ==> StoredIn(s, AddAlone(s, j, fuel), r)
  {
    hide Inv, AdderStep, Finish, Begun, StoredIn, Step;
    Parts(s);
    PlaceOk(s, s.current.value, j);
    RingAt(s.rings, s.adders, r);
    RingSize(s.rings[r], r, s.adders);
    var h, t := s.rings[r].head, s.rings[r].tail;
    BegunAt(s);
    RingReads(s, j, r);
    BegunReads(s, j, fuel, ALoad, ABuffer(s.current.value));
    BegunReads(s, j, fuel - 1, ABuffer(s.current.value), RHead(r, Fast));
    BegunReads(s, j, fuel - 2, RHead(r, Fast), RTail(r, h, Fast));
    if t - h == BUFFER_SIZE {
      BegunReads(s, j, fuel - 3, RTail(r, h, Fast), ADone(Full));
      BegunDone(s, j, fuel - 4);
    } else {
      BegunReads(s, j, fuel - 3, RTail(r, h, Fast), RCas(r, h, t, Fast));
      TakeAndPublish(s, j, fuel - 4, r);
    }
  }

  lemma BegunDone(s: State, j: nat, fuel: nat)
    ensures Finish(Begun(s, ADone(Full)), |s.adders|, j, fuel) == Begun(s, ADone(Full))
  {
  }

  lemma RingReads(s: State, j: nat, r: nat)
    requires Shown(s, j) == Some(r) && r < |s.rings|
    ensures var a, h, t := |s.adders|, s.rings[r].head, s.rings[r].tail;
      && AdderStep(Begun(s, ALoad), a, j) == Begun(s, ABuffer(s.current.value))
      && AdderStep(Begun(s, ABuffer(s.current.value)), a, j) == Begun(s, RHead(r, Fast))
      && AdderStep(Begun(s, RHead(r, Fast)), a, j) == Begun(s, RTail(r, h, Fast))
      && AdderStep(Begun(s, RTail(r, h, Fast)), a, j) == Begun(s, if t - h >= BUFFER_SIZE then ADone(Full) else RCas(r, h, t, Fast))
  {
  }

  lemma RingSize(ring: Ring, r: nat, adders: seq<Adder>)
    requires RingOk(ring, r, adders)
    ensures |ring.slots| == BUFFER_SIZE && ring.head <= ring.tail <= ring.head + BUFFER_SIZE
  {
  }

  lemma Returned(s: State, a: nat, j: nat, fuel: nat)
    requires a < |s.adders| && s.adders[a].pc.ADone?
    ensures Finish(s, a, j, fuel) == s
  {
  }

  lemma TakeAndPublish(s: State, j: nat, fuel: nat, r: nat)
    requires r < |s.rings| && |s.rings[r].slots| == BUFFER_SIZE && fuel >= 2
    ensures StoredIn(s, Finish(Begun(s, RCas(r, s.rings[r].head, s.rings[r].tail, Fast)), |s.adders|, j, fuel), r)
  {
    hide Finish;
    var s1 := Begun(s, RCas(r, s.rings[r].head, s.rings[r].tail, Fast));
    var a := |s.adders|;
    var s2 := AdderStep(s1, a, j);
    assert s2 == s1.(rings := s.rings[r := s.rings[r].(tail := s.rings[r].tail + 1, log := s.rings[r].log + [a])],
                     adders := s.adders + [Adder(RPublish(r, s.rings[r].tail), Some(Spot(r, s.rings[r].tail)))]);
    var s3 := AdderStep(s2, a, j);
    assert s3.adders == s.adders + [Adder(ADone(Success), Some(Spot(r, s.rings[r].tail)))];
    Advance(s1, a, j, fuel);
    Advance(s2, a, j, fuel - 1);
    Returned(s3, a, j, fuel - 2);
  }

  lemma Advance(s: State, a: nat, j: nat, fuel: nat)
    requires a < |s.adders| && !s.adders[a].pc.ADone? && fuel > 0 && a < |AdderStep(s, a, j).adders|
    ensures Finish(s, a, j, fuel) == Finish(AdderStep(s, a, j), a, j, fuel - 1)
  {
    hide AdderStep;
  }

  // ----- There is no ring yet -----

  /** The first array, with the first ring. */
  lemma FirstCase(s: State, j: nat, fuel: nat)
    requires Inv(s) && s.current == None && s.busy == None && fuel >= 8
    ensures StoredIn(s, AddAlone(s, j, fuel), |s.rings|)
  {
    hide AdderStep, Finish, Inv, Begun, StoredIn, Step;
    var x := Round(0, true, true);
    BegunAt(s);
    InitReads(s, j);
    BegunReads(s, j, fuel, ALoad, ELoad(x));
    BegunReads(s, j, fuel - 1, ELoad(x), IBusy(x));
    BegunReads(s, j, fuel - 2, IBusy(x), ISame(x));
    BegunReads(s, j, fuel - 3, ISame(x), ICas(x));
    FirstStores(s, j, fuel - 4);
  }

  lemma NewRingIn(s: State, s': State, place: nat)
    requires s'.rings == s.rings + [NewRing(|s.adders|, place)] && s'.busy == s.busy && s'.drain == s.drain
    requires s'.adders == s.adders + [Adder(ADone(Success), Some(Spot(|s.rings|, 0)))]
    ensures StoredIn(s, s', |s.rings|)
  {
  }

  lemma FirstStores(s: State, j: nat, fuel: nat)
    requires s.current == None && s.busy == None && fuel >= 4
    ensures StoredIn(s, Finish(Begun(s, ICas(Round(0, true, true))), |s.adders|, j, fuel), |s.rings|)
  {
    hide AdderStep, Finish, Begun, StoredIn;
    var a, x := |s.adders|, Round(0, true, true);
    var s' := s.(busy := Some(a));
    LocksAndChecks(s, j);
    BegunOnce(s, s', j, fuel, ICas(x), ICheck(x));
    BegunReads(s', j, fuel - 1, ICheck(x), IStore(x));
    StoreAndFree(s, j, fuel - 2);
  }

  lemma LocksAndChecks(s: State, j: nat)
    requires s.current == None && s.busy == None
    ensures var a, x := |s.adders|, Round(0, true, true);
      var s' := s.(busy := Some(a));
      && AdderStep(Begun(s, ICas(x)), a, j) == Begun(s', ICheck(x))
      && AdderStep(Begun(s', ICheck(x)), a, j) == Begun(s', IStore(x))
  {
  }

  lemma StoreAndFree(s: State, j: nat, fuel: nat)
    requires s.busy == None && fuel >= 2
    ensures var a := |s.adders|;
      StoredIn(s, Finish(Begun(s.(busy := Some(a)), IStore(Round(0, true, true))), a, j, fuel), |s.rings|)
  {
    hide Finish, StoredIn;
    var a := |s.adders|;
    var s7 := Begun(s.(busy := Some(a)), IStore(Round(0, true, true)));
    var s8 := AdderStep(s7, a, j);
    assert s8.adders == s.adders + [Adder(IFree(true, Round(0, true, true)), Some(Spot(|s.rings|, 0)))];
    assert s8.rings == s.rings + [NewRing(a, 0)] && s8.drain == s.drain;
    var s9 := AdderStep(s8, a, j);
    assert s9.adders == s.adders + [Adder(ADone(Success), Some(Spot(|s.rings|, 0)))];
    Advance(s7, a, j, fuel);
    Advance(s8, a, j, fuel - 1);
    Returned(s9, a, j, fuel - 2);
    NewRingIn(s, s9, 0);
  }

  lemma InitReads(s: State, j: nat)
    requires s.current == None && s.busy == None
    ensures var x, a := Round(0, true, true), |s.adders|;
      && AdderStep(Begun(s, ALoad), a, j) == Begun(s, ELoad(x))
      && AdderStep(Begun(s, ELoad(x)), a, j) == Begun(s, IBusy(x))
      && AdderStep(Begun(s, IBusy(x)), a, j) == Begun(s, ISame(x))
      && AdderStep(Begun(s, ISame(x)), a, j) == Begun(s, ICas(x))
  {
  }

  /** A free place of the array gets a ring. */
  lemma AttachCase(s: State, j: nat, fuel: nat)
    requires Inv(s) && s.current.Some? && Shown(s, j) == None && s.busy == None && fuel >= 10
    ensures StoredIn(s, AddAlone(s, j, fuel), |s.rings|)
  {
    hide AdderStep, Finish, Inv, Begun, StoredIn, Step;
    Parts(s);
    ArrayThere(s);
    var x, bs := Round(0, true, true), s.current.value;
    BegunAt(s);
    AttachReads(s, j);
    BegunReads(s, j, fuel, ALoad, ABuffer(bs));
    BegunReads(s, j, fuel - 1, ABuffer(bs), ELoad(x));
    BegunReads(s, j, fuel - 2, ELoad(x), EBuffer(bs, x));
    BegunReads(s, j, fuel - 3, EBuffer(bs, x), BBusy(x));
    BegunReads(s, j, fuel - 4, BBusy(x), BCas(x));
    RingAttached(s, j, fuel - 5);
  }

  lemma RingAttached(s: State, j: nat, fuel: nat)
    requires s.current.Some? && s.current.value < |s.arrays| && |s.arrays[s.current.value]| > 0 && Shown(s, j) == None && s.busy == None
    requires fuel >= 5
    ensures StoredIn(s, Finish(Begun(s, BCas(Round(0, true, true))), |s.adders|, j, fuel), |s.rings|)
  {
    hide AdderStep, Finish, Begun, StoredIn, Shown;
    var a, x, bs := |s.adders|, Round(0, true, true), s.current.value;
    var s' := s.(busy := Some(a));
    LocksAndLooks(s, j);
    BegunOnce(s, s', j, fuel, BCas(x), BLoad(x));
    BegunReads(s', j, fuel - 1, BLoad(x), BCheck(bs, x));
    BegunReads(s', j, fuel - 2, BCheck(bs, x), BAttach(bs, j % |s.arrays[bs]|, x));
    AttachAndFree(s, j, fuel - 3);
  }

  /** A step of the add just begun that leads to another state. */
  lemma BegunOnce(s: State, s': State, j: nat, fuel: nat, x: AdderPc, y: AdderPc)
    requires !x.ADone? && fuel > 0 && s'.adders == s.adders && AdderStep(Begun(s, x), |s.adders|, j) == Begun(s', y)
    ensures Finish(Begun(s, x), |s.adders|, j, fuel) == Finish(Begun(s', y), |s.adders|, j, fuel - 1)
  {
    hide AdderStep;
  }

  lemma LocksAndLooks(s: State, j: nat)
    requires s.current.Some? && s.current.value < |s.arrays| && |s.arrays[s.current.value]| > 0 && Shown(s, j) == None && s.busy == None
    ensures var a, bs, x := |s.adders|, s.current.value, Round(0, true, true);
      var s' := s.(busy := Some(a));
      && AdderStep(Begun(s, BCas(x)), a, j) == Begun(s', BLoad(x))
      && AdderStep(Begun(s', BLoad(x)), a, j) == Begun(s', BCheck(bs, x))
      && AdderStep(Begun(s', BCheck(bs, x)), a, j) == Begun(s', BAttach(bs, j % |s.arrays[bs]|, x))
  {
  }

  lemma AttachAndFree(s: State, j: nat, fuel: nat)
    requires s.current.Some? && s.current.value < |s.arrays| && |s.arrays[s.current.value]| > 0 && s.busy == None && fuel >= 2
    ensures var a, bs := |s.adders|, s.current.value;
      StoredIn(s, Finish(Begun(s.(busy := Some(a)), BAttach(bs, j % |s.arrays[bs]|, Round(0, true, true))), a, j, fuel), |s.rings|)
  {
    hide Finish, StoredIn;
    var a, bs := |s.adders|, s.current.value;
    var k := j % |s.arrays[bs]|;
    var s9 := Begun(s.(busy := Some(a)), BAttach(bs, k, Round(0, true, true)));
    var s10 := AdderStep(s9, a, j);
    assert s10.adders == s.adders + [Adder(BFree(true, Round(0, true, true)), Some(Spot(|s.rings|, 0)))];
    assert s10.rings == s.rings + [NewRing(a, k)] && s10.drain == s.drain;
    var s11 := AdderStep(s10, a, j);
    assert s11.adders == s.adders + [Adder(ADone(Success), Some(Spot(|s.rings|, 0)))];
    Advance(s9, a, j, fuel);
    Advance(s10, a, j, fuel - 1);
    Returned(s11, a, j, fuel - 2);
    NewRingIn(s, s11, k);
  }

  lemma ArrayThere(s: State)
    requires ArraysOk(s.rings, s.arrays, s.current) && s.current.Some?
    ensures s.current.value < |s.arrays| && |s.arrays[s.current.value]| > 0
  {
  }

  lemma AttachReads(s: State, j: nat)
    requires s.current.Some? && Shown(s, j) == None && s.busy == None
    ensures var x, bs, a := Round(0, true, true), s.current.value, |s.adders|;
      && AdderStep(Begun(s, ALoad), a, j) == Begun(s, ABuffer(bs))
      && AdderStep(Begun(s, ABuffer(bs)), a, j) == Begun(s, ELoad(x))
      && AdderStep(Begun(s, ELoad(x)), a, j) == Begun(s, EBuffer(bs, x))
      && AdderStep(Begun(s, EBuffer(bs, x)), a, j) == Begun(s, BBusy(x))
      && AdderStep(Begun(s, BBusy(x)), a, j) == Begun(s, BCas(x))
  {
  }

  /** The number of elements reserved in the ring and not given back by the drainer. */
  function Held(ring: Ring): int {
    ring.tail - ring.head
  }

  /**
    After any run in which nobody is left holding the spin lock: an add alone answers Full if and only if its token shows
    a ring that holds sixteen elements, and then changes nothing. Otherwise it answers Success, and its element is
    the last one of that ring, or the first of a new ring if the token showed none.
  */
  lemma AddAloneOk(maxLen: nat, actions: seq<Action>, j: nat, fuel: nat)
    requires Run(New(maxLen), actions).busy == None && fuel >= 10
    ensures var s := Run(New(maxLen), actions); var s' := AddAlone(s, j, fuel); var r := Shown(s, j);
      && (r.Some? ==> r.value < |s.rings|)
      && (if r.Some? && Held(s.rings[r.value]) == BUFFER_SIZE
          then s' == Begun(s, ADone(Full))
          else StoredIn(s, s', if r.Some? then r.value else |s.rings|))
  {
    hide Inv, AddAlone, StoredIn, Step, Begun;
    InitOk(maxLen);
    RunOk(New(maxLen), actions);
    var s := Run(New(maxLen), actions);
    var r := Shown(s, j);
    if r.Some? {
      RingCase(s, j, fuel, r.value);
      AtMost(s, r.value);
    } else if s.current.Some? {
      AttachCase(s, j, fuel);
    } else {
      FirstCase(s, j, fuel);
    }
  }

  lemma AtMost(s: State, r: nat)
    requires Inv(s) && r < |s.rings|
    ensures Held(s.rings[r]) <= BUFFER_SIZE
  {
    RingAt(s.rings, s.adders, r);
    RingSize(s.rings[r], r, s.adders);
  }

  /** While no drain is under way, what a ring holds is what has been reserved and not delivered. */
  lemma HeldIsUndelivered(maxLen: nat, actions: seq<Action>, r: nat)
    requires var s := Run(New(maxLen), actions); s.drain.DIdle? && r < |s.rings|
    ensures var s := Run(New(maxLen), actions); Held(s.rings[r]) == |s.rings[r].log| - |s.rings[r].delivered|
  {
    InitOk(maxLen);
    RunOk(New(maxLen), actions);
    var s := Run(New(maxLen), actions);
    RingAt(s.rings, s.adders, r);
  }

  // ---------- A drain ----------

  function FinishDrain(s: State, fuel: nat): State
    decreases fuel
  {
    if fuel == 0 || s.drain.DIdle? then s else FinishDrain(DrainStep(s), fuel - 1)
  }

  function DrainAlone(s: State, fuel: nat): State {
    FinishDrain(Step(s, BeginDrain), fuel)
  }

  ghost predicate NobodyAdds(s: State) {
    forall a :: 0 <= a < |s.adders| ==> s.adders[a].pc.ADone?
  }

  /** The rings at the first i places are empty. */
  ghost predicate Drained(rings: seq<Ring>, i: nat) {
    forall r :: 0 <= r < |rings| && rings[r].place < i ==> rings[r].delivered == rings[r].log
  }

  /** Where a drain is, when nobody adds meanwhile. */
  ghost predicate Sweeping(s: State) {
    && s.current.Some? && s.current.value < |s.arrays|
    && match s.drain
       case DLoad => true
       case DPlace(bs, i) => bs == s.current.value && i <= |s.arrays[bs]| && Drained(s.rings, i)
       case DHead(bs, i, r) => bs == s.current.value && Shows(s.arrays, bs, i, r) && Drained(s.rings, i)
       case DTail(bs, i, r, h) => bs == s.current.value && Shows(s.arrays, bs, i, r) && Drained(s.rings, i)
       case DLook(bs, i, r, h, t) => bs == s.current.value && Shows(s.arrays, bs, i, r) && Drained(s.rings, i) && r < |s.rings| && t == s.rings[r].tail
       case DClear(bs, i, r, h, t, n) => bs == s.current.value && Shows(s.arrays, bs, i, r) && Drained(s.rings, i) && r < |s.rings| && t == s.rings[r].tail
       case DStore(bs, i, r, h) =>
         && bs == s.current.value && Shows(s.arrays, bs, i, r) && Drained(s.rings, i)
         && r < |s.rings| && s.rings[r].delivered == s.rings[r].log
       case DIdle => Drained(s.rings, |s.arrays[s.current.value]|)
  }

  /** Steps to the end, at most. */
  function DrainRank(s: State): nat {
    if !s.current.Some? || s.current.value >= |s.arrays| then 1
    else
      var len := |s.arrays[s.current.value]|;
      match s.drain
      case DLoad => 40 * len + 2
      case DPlace(_, i) => if i <= len then 40 * (len - i) + 1 else 0
      case DHead(_, i, _) => if i < len then 40 * (len - i - 1) + 39 else 0
      case DTail(_, i, _, _) => if i < len then 40 * (len - i - 1) + 38 else 0
      case DLook(_, i, _, h, t) => if i < len && h <= t then 40 * (len - i - 1) + 4 + 2 * (t - h) else 0
      case DClear(_, i, _, h, t, _) => if i < len && h <= t then 40 * (len - i - 1) + 3 + 2 * (t - h) else 0
      case DStore(_, i, _, _) => if i < len then 40 * (len - i - 1) + 3 else 0
      case DIdle => 0
  }

  /** The same rings at the same places, with the same elements reserved. */
  ghost predicate SameLogs(s: State, s': State) {
    && s'.adders == s.adders && s'.arrays == s.arrays && s'.current == s.current && s'.busy == s.busy && |s'.rings| == |s.rings|
    && forall r :: 0 <= r < |s.rings| ==> s'.rings[r].log == s.rings[r].log && s'.rings[r].place == s.rings[r].place
  }

  ghost predicate Nearer(s: State, s': State) {
    Sweeping(s') && SameLogs(s, s') && DrainRank(s') < DrainRank(s)
  }

  lemma SweepStep(s: State)
    requires Inv(s) && NobodyAdds(s) && Sweeping(s) && !s.drain.DIdle?
    ensures Nearer(s, DrainStep(s))
  {
    hide Inv, DrainStep, Sweeping, Nearer;
    if s.drain.DLoad? || s.drain.DPlace? {
      PlaceStep(s);
    } else if s.drain.DHead? || s.drain.DTail? {
      CountStep(s);
    } else if s.drain.DLook? {
      SlotStep(s);
    } else if s.drain.DClear? {
      ClearStep(s);
    } else {
      HeadStep(s);
    }
  }

  /** The place i of the current array belongs to the ring it shows, and to no other. */
  lemma OwnPlace(s: State, i: nat)
    requires Inv(s) && s.current.Some?
    ensures s.current.value < |s.arrays|
    ensures forall r :: 0 <= r < |s.rings| ==> Shows(s.arrays, s.current.value, s.rings[r].place, r)
  {
  }

  lemma PlaceStep(s: State)
    requires Inv(s) && Sweeping(s) && (s.drain.DLoad? || s.drain.DPlace?)
    ensures Nearer(s, DrainStep(s))
  {
    hide Inv;
    if s.drain.DPlace? {
      OwnPlace(s, s.drain.i);
      assert forall r :: 0 <= r < |s.rings| ==> s.rings[r].place < |s.arrays[s.current.value]|;
    }
  }

  lemma CountStep(s: State)
    requires Inv(s) && Sweeping(s) && (s.drain.DHead? || s.drain.DTail?)
    ensures Nearer(s, DrainStep(s))
  {
    RingOf(s);
    hide Inv;
    OwnPlace(s, s.drain.i);
  }

  /** The ring the drain is at. */
  lemma RingOf(s: State)
    requires Inv(s) && (s.drain.DHead? || s.drain.DTail? || s.drain.DLook? || s.drain.DClear? || s.drain.DStore?)
    ensures s.drain.r < |s.rings|
    ensures var ring := s.rings[s.drain.r];
      && |ring.slots| == BUFFER_SIZE && |ring.log| == ring.tail && ring.delivered <= ring.log && ring.tail <= ring.head + BUFFER_SIZE
      && ring.head <= |ring.delivered|
      && (s.drain.DTail? ==> s.drain.h == ring.head == |ring.delivered|)
      && (s.drain.DLook? || s.drain.DClear? ==> s.drain.h == |ring.delivered| <= s.drain.t)
      && (s.drain.DClear? ==> s.drain.h < s.drain.t && ring.log[s.drain.h] == s.drain.n)
  {
    RingAt(s.rings, s.adders, s.drain.r);
    if s.drain.DClear? {
      TakenFirst(s.rings[s.drain.r], s.drain.r, s.adders, s.drain.n);
    }
  }

  lemma SlotStep(s: State)
    requires Inv(s) && NobodyAdds(s) && Sweeping(s) && s.drain.DLook?
    ensures Nearer(s, DrainStep(s))
  {
    RingOf(s);
    if s.drain.h < s.drain.t {
      Visible(s, s.drain.r);
    }
    hide Inv;
  }

  /** With nobody adding, the next element is in its slot. */
  lemma Visible(s: State, r: nat)
    requires Inv(s) && NobodyAdds(s) && r < |s.rings| && |s.rings[r].delivered| < s.rings[r].tail
    ensures |s.rings[r].slots| == BUFFER_SIZE && s.rings[r].slots[|s.rings[r].delivered| % BUFFER_SIZE].Some?
  {
    RingAt(s.rings, s.adders, r);
    assert Awaited(s.rings[r], r, s.adders, |s.rings[r].delivered|);
  }

  lemma ClearStep(s: State)
    requires Inv(s) && Sweeping(s) && s.drain.DClear?
    ensures Nearer(s, DrainStep(s))
  {
    RingOf(s);
    hide Inv;
    OwnPlace(s, s.drain.i);
    var r := s.drain.r;
    assert forall q :: 0 <= q < |s.rings| && q != r ==> DrainStep(s).rings[q] == s.rings[q];
    assert s.rings[r].place == s.drain.i;
  }

  lemma HeadStep(s: State)
    requires Inv(s) && Sweeping(s) && s.drain.DStore?
    ensures Nearer(s, DrainStep(s))
  {
    RingOf(s);
    hide Inv;
    OwnPlace(s, s.drain.i);
    var r := s.drain.r;
    assert forall q :: 0 <= q < |s.rings| && q != r ==> DrainStep(s).rings[q] == s.rings[q];
    assert s.rings[r].place == s.drain.i;
  }

  lemma {:induction false} SweepAll(s: State, fuel: nat)
    requires Inv(s) && NobodyAdds(s) && Sweeping(s) && fuel >= DrainRank(s)
    ensures var s' := FinishDrain(s, fuel);
      s'.drain.DIdle? && Sweeping(s') && Inv(s') && SameLogs(s, s')
    decreases fuel
  {
    hide Inv, Sweeping, DrainStep, DrainRank;
    if !s.drain.DIdle? {
      var s1 := DrainStep(s);
      SweepStep(s);
      StepOk(s, GoDrain);
      SweepAll(s1, fuel - 1);
    }
  }

  /**
    After any run in which no add is under way: a drain, run to its end, delivers everything. Every ring is at a place of the
    current array, and all that was reserved in it has then been delivered, in order.
  */
  lemma DrainAloneOk(maxLen: nat, actions: seq<Action>, fuel: nat)
    requires var s := Run(New(maxLen), actions);
      && NobodyAdds(s) && s.drain.DIdle?
      && fuel >= 2 + 40 * (if s.current.Some? && s.current.value < |s.arrays| then |s.arrays[s.current.value]| else 0)
    ensures var s := Run(New(maxLen), actions); var s' := DrainAlone(s, fuel);
      && s'.drain.DIdle? && SameLogs(s, s')
      && forall r :: 0 <= r < |s'.rings| ==> s'.rings[r].delivered == s'.rings[r].log == s.rings[r].log && Held(s'.rings[r]) == 0
  {
    hide Inv, Step;
    InitOk(maxLen);
    RunOk(New(maxLen), actions);
    var s := Run(New(maxLen), actions);
    var s1 := Step(s, BeginDrain);
    StepOk(s, BeginDrain);
    Begins(s);
    if s.current.Some? {
      SweepAll(s1, fuel);
      AllDrained(FinishDrain(s1, fuel));
    } else {
      NoRings(s1, fuel);
    }
  }

  lemma Begins(s: State)
    requires Inv(s) && s.drain.DIdle?
    ensures Step(s, BeginDrain) == s.(drain := DLoad)
    ensures s.current.Some? ==> Sweeping(s.(drain := DLoad)) && s.current.value < |s.arrays|
    ensures s.current.None? ==> s.rings == []
  {
  }

  lemma AllDrained(s: State)
    requires Inv(s) && Sweeping(s) && s.drain.DIdle?
    ensures forall r :: 0 <= r < |s.rings| ==> s.rings[r].delivered == s.rings[r].log && Held(s.rings[r]) == 0
  {
    OwnPlace(s, 0);
    forall r | 0 <= r < |s.rings| ensures s.rings[r].delivered == s.rings[r].log && Held(s.rings[r]) == 0 {
      assert Shows(s.arrays, s.current.value, s.rings[r].place, r);
      RingAt(s.rings, s.adders, r);
    }
  }

  lemma NoRings(s: State, fuel: nat)
    requires s.drain.DLoad? && s.current.None? && s.rings == [] && fuel >= 1
    ensures FinishDrain(s, fuel) == s.(drain := DIdle)
  {
    assert DrainStep(s) == s.(drain := DIdle);
  }
}
