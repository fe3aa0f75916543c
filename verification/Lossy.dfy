/**
  The lossy read buffer: a growing array of small rings. Adders reserve a position with
  one CAS and publish afterwards, a single drainer takes what is published. Every adder
  adds one element, named after the adder. All of them take one atomic step at a time.
*/
module Lossy {
  import opened Options

  const BUFFER_SIZE: nat := 16
  const ATTEMPTS: nat := 3

  datatype Status = Success | Failed | Full

  /**
    A ring with its two counters and its slots. `log` lists the elements in the order of
    their reservations, `delivered` what the drainer passed on, `place` is the index of
    the ring in the arrays.
  */
  datatype Ring = Ring(head: nat, tail: nat, slots: seq<Option<nat>>, log: seq<nat>, delivered: seq<nat>, place: nat)

  /** The loop variables of expandOrRetry. */
  datatype Round = Round(attempt: nat, collide: bool, uncontended: bool)

  /** Where an attempt to add to a ring was made. */
  datatype Site = Fast | Slow(bs: nat, x: Round)

  datatype AdderPc =
    // Add
    | ALoad
    | ABuffer(bs: nat)
    // ring.add
    | RHead(r: nat, at: Site)
    | RTail(r: nat, h: nat, at: Site)
    | RCas(r: nat, h: nat, t: nat, at: Site)
    | RPublish(r: nat, t: nat)
    // expandOrRetry
    | ELoad(x: Round)
    | EBuffer(bs: nat, x: Round)
    // attaching a ring to a free place
    | BBusy(x: Round)
    | BCas(x: Round)
    | BLoad(x: Round)
    | BCheck(bs: nat, x: Round)
    | BAttach(bs: nat, j: nat, x: Round)
    | BFree(stored: bool, x: Round)
    // growing the array
    | FStale(bs: nat, x: Round)
    | FBusy(bs: nat, x: Round)
    | FCas(bs: nat, x: Round)
    | FCheck(bs: nat, x: Round)
    | FCopy(bs: nat, copy: seq<Option<nat>>, x: Round)
    | FFree(x: Round)
    // making the first array
    | IBusy(x: Round)
    | ISame(x: Round)
    | ICas(x: Round)
    | ICheck(x: Round)
    | IStore(x: Round)
    | IFree(stored: bool, x: Round)
    | ADone(result: Status)

  datatype Spot = Spot(ring: nat, pos: nat)

  /** `spot` is the position the adder reserved for its element. */
  datatype Adder = Adder(pc: AdderPc, spot: Option<Spot>)

  datatype DrainPc =
    | DIdle
    | DLoad
    | DPlace(bs: nat, i: nat)
    | DHead(bs: nat, i: nat, r: nat)
    | DTail(bs: nat, i: nat, r: nat, h: nat)
    | DLook(bs: nat, i: nat, r: nat, h: nat, t: nat)
    | DClear(bs: nat, i: nat, r: nat, h: nat, t: nat, n: nat)
    | DStore(bs: nat, i: nat, r: nat, h: nat)

  /** `arrays` lists the striped arrays ever published, `busy` who holds the spin lock. */
  datatype State = State(
    rings: seq<Ring>, arrays: seq<seq<Option<nat>>>, current: Option<nat>, busy: Option<nat>,
    adders: seq<Adder>, drain: DrainPc, maxLen: nat)

  datatype Action = Begin | GoAdder(a: nat, j: nat) | BeginDrain | GoDrain

  function New(maxLen: nat): State {
    State([], [], None, None, [], DIdle, maxLen)
  }

  function NewRing(n: nat, place: nat): Ring {
    Ring(0, 1, [Some(n), None, None, None, None, None, None, None, None, None, None, None, None, None, None, None], [n], [], place)
  }

  function Retry(x: Round): AdderPc {
    if x.attempt + 1 >= ATTEMPTS then ADone(Failed) else ELoad(x.(attempt := x.attempt + 1))
  }

  function Goto(s: State, a: nat, pc: AdderPc): State
    requires a < |s.adders|
  {
    s.(adders := s.adders[a := s.adders[a].(pc := pc)])
  }

  /** Reads the place the token points to; which one that is, is left open. */
  function Place(s: State, bs: nat, j: nat): Option<nat> {
    if bs < |s.arrays| && |s.arrays[bs]| > 0 then s.arrays[bs][j % |s.arrays[bs]|] else None
  }

  /** ring.add */
  function RingStep(s: State, a: nat): State
    requires a < |s.adders|
  {
    match s.adders[a].pc
    case RHead(r, at) => if r < |s.rings| then Goto(s, a, RTail(r, s.rings[r].head, at)) else s
    case RTail(r, h, at) =>
      if r >= |s.rings| then s
      else if s.rings[r].tail - h >= BUFFER_SIZE then Goto(s, a, ADone(Full))
      else Goto(s, a, RCas(r, h, s.rings[r].tail, at))
    case RCas(r, h, t, at) =>
      if r >= |s.rings| then s
      else if s.rings[r].tail == t then
        s.(rings := s.rings[r := s.rings[r].(tail := t + 1, log := s.rings[r].log + [a])],
           adders := s.adders[a := Adder(RPublish(r, t), Some(Spot(r, t)))])
      else Goto(s, a, match at case Fast => ELoad(Round(0, true, false)) case Slow(bs, x) => FStale(bs, x))
    case RPublish(r, t) =>
      if r < |s.rings| && |s.rings[r].slots| == BUFFER_SIZE then
        Goto(s.(rings := s.rings[r := s.rings[r].(slots := s.rings[r].slots[t % BUFFER_SIZE := Some(a)])]), a, ADone(Success))
      else s
    case _ => s
  }

  /** Add, and the top of the loop of expandOrRetry. */
  function LookStep(s: State, a: nat, j: nat): State
    requires a < |s.adders|
  {
    match s.adders[a].pc
    case ALoad => Goto(s, a, match s.current case Some(bs) => ABuffer(bs) case None => ELoad(Round(0, true, true)))
    case ABuffer(bs) => Goto(s, a, match Place(s, bs, j) case Some(r) => RHead(r, Fast) case None => ELoad(Round(0, true, true)))
    case ELoad(x) => Goto(s, a, match s.current case Some(bs) => EBuffer(bs, x) case None => IBusy(x))
    case EBuffer(bs, x) => Goto(s, a, match Place(s, bs, j)
      case None => BBusy(x)
      case Some(r) => if !x.uncontended then Retry(x.(uncontended := true)) else RHead(r, Slow(bs, x)))
    case _ => s
  }

  /** Attaching a ring that already holds the element. */
  function AttachStep(s: State, a: nat, j: nat): State
    requires a < |s.adders|
  {
    match s.adders[a].pc
    case BBusy(x) => Goto(s, a, if s.busy.None? then BCas(x) else Retry(x.(collide := false)))
    case BCas(x) => if s.busy.None? then Goto(s.(busy := Some(a)), a, BLoad(x)) else Goto(s, a, Retry(x.(collide := false)))
    case BLoad(x) => Goto(s, a, match s.current case Some(bs) => BCheck(bs, x) case None => BFree(false, x))
    case BCheck(bs, x) =>
      Goto(s, a, if bs < |s.arrays| && |s.arrays[bs]| > 0 && s.arrays[bs][j % |s.arrays[bs]|].None?
                 then BAttach(bs, j % |s.arrays[bs]|, x) else BFree(false, x))
    case BAttach(bs, k, x) =>
      if bs < |s.arrays| && k < |s.arrays[bs]| then
        s.(rings := s.rings + [NewRing(a, k)],
           arrays := s.arrays[bs := s.arrays[bs][k := Some(|s.rings|)]],
           adders := s.adders[a := Adder(BFree(true, x), Some(Spot(|s.rings|, 0)))])
      else s
    case BFree(stored, x) => Goto(s.(busy := None), a, if stored then ADone(Success) else Retry(x))
    case _ => s
  }

  /** Doubling the array; the places are copied one by one. */
  function GrowStep(s: State, a: nat): State
    requires a < |s.adders|
  {
    match s.adders[a].pc
    case FStale(bs, x) =>
      Goto(s, a, if (bs < |s.arrays| && |s.arrays[bs]| >= s.maxLen) || s.current != Some(bs) then Retry(x.(collide := false))
                 else if !x.collide then Retry(x.(collide := true))
                 else FBusy(bs, x))
    case FBusy(bs, x) => Goto(s, a, if s.busy.None? then FCas(bs, x) else Retry(x))
    case FCas(bs, x) => if s.busy.None? then Goto(s.(busy := Some(a)), a, FCheck(bs, x)) else Goto(s, a, Retry(x))
    case FCheck(bs, x) => Goto(s, a, if s.current == Some(bs) then FCopy(bs, [], x) else FFree(x))
    case FCopy(bs, copy, x) =>
      if bs >= |s.arrays| then s
      else if |copy| < |s.arrays[bs]| then Goto(s, a, FCopy(bs, copy + [s.arrays[bs][|copy|]], x))
      else Goto(s.(arrays := s.arrays + [copy + seq(|copy|, i => None)], current := Some(|s.arrays|)), a, FFree(x))
    case FFree(x) => Goto(s.(busy := None), a, Retry(x.(collide := false)))
    case _ => s
  }

  /** Making the first array, with one ring that already holds the element. */
  function InitStep(s: State, a: nat): State
    requires a < |s.adders|
  {
    match s.adders[a].pc
    case IBusy(x) => Goto(s, a, if s.busy.None? then ISame(x) else Retry(x))
    case ISame(x) => Goto(s, a, if s.current.None? then ICas(x) else Retry(x))
    case ICas(x) => if s.busy.None? then Goto(s.(busy := Some(a)), a, ICheck(x)) else Goto(s, a, Retry(x))
    case ICheck(x) => Goto(s, a, if s.current.None? then IStore(x) else IFree(false, x))
    case IStore(x) =>
      s.(rings := s.rings + [NewRing(a, 0)], arrays := s.arrays + [[Some(|s.rings|)]], current := Some(|s.arrays|),
         adders := s.adders[a := Adder(IFree(true, x), Some(Spot(|s.rings|, 0)))])
    case IFree(stored, x) => Goto(s.(busy := None), a, if stored then ADone(Success) else Retry(x))
    case _ => s
  }

  predicate InRing(pc: AdderPc) {
    pc.RHead? || pc.RTail? || pc.RCas? || pc.RPublish?
  }

  predicate Looking(pc: AdderPc) {
    pc.ALoad? || pc.ABuffer? || pc.ELoad? || pc.EBuffer?
  }

  predicate Attaching(pc: AdderPc) {
    pc.BBusy? || pc.BCas? || pc.BLoad? || pc.BCheck? || pc.BAttach? || pc.BFree?
  }

  predicate Growing(pc: AdderPc) {
    pc.FStale? || pc.FBusy? || pc.FCas? || pc.FCheck? || pc.FCopy? || pc.FFree?
  }

  function AdderStep(s: State, a: nat, j: nat): State
    requires a < |s.adders|
  {
    var pc := s.adders[a].pc;
    if InRing(pc) then RingStep(s, a)
    else if Looking(pc) then LookStep(s, a, j)
    else if Attaching(pc) then AttachStep(s, a, j)
    else if Growing(pc) then GrowStep(s, a)
    else InitStep(s, a)
  }

  /** DrainTo, ring after ring. */
  function DrainStep(s: State): State {
    match s.drain
    case DIdle => s
    case DLoad => s.(drain := match s.current case Some(bs) => DPlace(bs, 0) case None => DIdle)
    case DPlace(bs, i) =>
      if bs >= |s.arrays| || i >= |s.arrays[bs]| then s.(drain := DIdle)
      else s.(drain := match s.arrays[bs][i] case Some(r) => DHead(bs, i, r) case None => DPlace(bs, i + 1))
    case DHead(bs, i, r) => if r < |s.rings| then s.(drain := DTail(bs, i, r, s.rings[r].head)) else s
    case DTail(bs, i, r, h) =>
      if r >= |s.rings| then s
      else s.(drain := if s.rings[r].tail == h then DPlace(bs, i + 1) else DLook(bs, i, r, h, s.rings[r].tail))
    case DLook(bs, i, r, h, t) =>
      if h == t then s.(drain := DStore(bs, i, r, h))
      else if r < |s.rings| && |s.rings[r].slots| == BUFFER_SIZE then
        s.(drain := match s.rings[r].slots[h % BUFFER_SIZE]
           case None => DStore(bs, i, r, h)
           case Some(n) => DClear(bs, i, r, h, t, n))
      else s
    case DClear(bs, i, r, h, t, n) =>
      if r < |s.rings| && |s.rings[r].slots| == BUFFER_SIZE then
        s.(rings := s.rings[r := s.rings[r].(slots := s.rings[r].slots[h % BUFFER_SIZE := None], delivered := s.rings[r].delivered + [n])],
           drain := DLook(bs, i, r, h + 1, t))
      else s
    case DStore(bs, i, r, h) =>
      if r < |s.rings| then s.(rings := s.rings[r := s.rings[r].(head := h)], drain := DPlace(bs, i + 1)) else s
  }

  function Step(s: State, x: Action): State {
    match x
    case Begin => s.(adders := s.adders + [Adder(ALoad, None)])
    case GoAdder(a, j) => if a < |s.adders| then AdderStep(s, a, j) else s
    case BeginDrain => if s.drain.DIdle? then s.(drain := DLoad) else s
    case GoDrain => DrainStep(s)
  }

  function Run(s: State, actions: seq<Action>): State
    decreases |actions|
  {
    if actions == [] then s else Run(Step(s, actions[0]), actions[1..])
  }

  // ---------- What must hold ----------

  function At(s: State, r: nat): Ring
    requires r < |s.rings|
  {
    s.rings[r]
  }

  predicate Publishing(adders: seq<Adder>, n: nat, r: nat, p: nat) {
    n < |adders| && adders[n].pc == RPublish(r, p)
  }

  /** Position p is reserved and not yet delivered: its element is in the slot, or its adder is about to put it there. */
  predicate Awaited(me: Ring, r: nat, adders: seq<Adder>, p: nat)
    requires |me.slots| == BUFFER_SIZE && p < |me.log|
  {
    || (me.slots[p % BUFFER_SIZE] == Some(me.log[p]) && !Publishing(adders, me.log[p], r, p))
    || (me.slots[p % BUFFER_SIZE] == None && Publishing(adders, me.log[p], r, p))
  }

  ghost predicate RingOk(me: Ring, r: nat, adders: seq<Adder>) {
    var d := |me.delivered|;
    && |me.slots| == BUFFER_SIZE
    && me.head <= d <= me.tail <= me.head + BUFFER_SIZE
    && |me.log| == me.tail
    && me.delivered == me.log[..d]
    && (forall p :: d <= p < me.tail ==> Awaited(me, r, adders, p))
    && (forall p :: me.tail <= p < d + BUFFER_SIZE ==> me.slots[p % BUFFER_SIZE] == None)
    && (forall p :: 0 <= p < me.tail ==> HasSpot(adders, me.log[p], r, p))
    && (forall p :: 0 <= p < d ==> !Publishing(adders, me.log[p], r, p))
  }

  predicate HasSpot(adders: seq<Adder>, n: nat, r: nat, p: nat) {
    n < |adders| && adders[n].spot == Some(Spot(r, p))
  }

  predicate HoldsBusy(pc: AdderPc) {
    pc.BLoad? || pc.BCheck? || pc.BAttach? || pc.BFree? || pc.FCheck? || pc.FCopy? || pc.FFree?
    || pc.ICheck? || pc.IStore? || pc.IFree?
  }

  predicate Stored(pc: AdderPc) {
    pc.RPublish? || (pc.BFree? && pc.stored) || (pc.IFree? && pc.stored) || (pc.ADone? && pc.result == Success)
  }

  /** What is known of adder a. */
  ghost predicate AdderOk(me: Adder, a: nat, rings: seq<Ring>, arrays: seq<seq<Option<nat>>>, current: Option<nat>, busy: Option<nat>) {
    && (me.spot.Some? <==> Stored(me.pc))
    && (me.spot.Some? ==> me.spot.value.ring < |rings| && me.spot.value.pos < |rings[me.spot.value.ring].log|
                          && rings[me.spot.value.ring].log[me.spot.value.pos] == a)
    && (me.pc.RPublish? ==> me.spot == Some(Spot(me.pc.r, me.pc.t)))
    && (InRing(me.pc) ==> me.pc.r < |rings|)
    && (me.pc.RTail? || me.pc.RCas? ==> me.pc.h <= rings[me.pc.r].head)
    && (me.pc.RCas? ==> me.pc.t < me.pc.h + BUFFER_SIZE)
    && (HoldsBusy(me.pc) ==> busy == Some(a))
    && (me.pc.BCheck? ==> current == Some(me.pc.bs))
    && (me.pc.BAttach? ==> current == Some(me.pc.bs) && me.pc.bs < |arrays| && me.pc.j < |arrays[me.pc.bs]| && arrays[me.pc.bs][me.pc.j] == None)
    && (me.pc.FCopy? ==> current == Some(me.pc.bs) && me.pc.bs < |arrays| && me.pc.copy <= arrays[me.pc.bs])
    && (me.pc.IStore? ==> current == None)
  }

  /** Every ring is at one place of the current array, and what an older array shows is still there. */
  ghost predicate ArraysOk(rings: seq<Ring>, arrays: seq<seq<Option<nat>>>, current: Option<nat>) {
    && (current == None ==> rings == [] && arrays == [])
    && (current.Some? ==> current.value < |arrays| && |arrays[current.value]| > 0)
    && (forall r :: 0 <= r < |rings| ==> current.Some? && Shows(arrays, current.value, rings[r].place, r))
    && (forall b, j :: 0 <= b < |arrays| && 0 <= j < |arrays[b]| && arrays[b][j].Some? ==>
          && current.Some? && arrays[b][j].value < |rings| && rings[arrays[b][j].value].place == j)
  }

  predicate Shows(arrays: seq<seq<Option<nat>>>, b: nat, j: nat, r: nat) {
    b < |arrays| && j < |arrays[b]| && arrays[b][j] == Some(r)
  }

  predicate Draining(d: DrainPc, r: nat) {
    (d.DLook? || d.DClear? || d.DStore?) && d.r == r
  }

  ghost predicate DrainOk(d: DrainPc, rings: seq<Ring>) {
    && (forall r :: 0 <= r < |rings| && !Draining(d, r) ==> |rings[r].delivered| == rings[r].head)
    && (d.DHead? || d.DTail? || d.DLook? || d.DClear? || d.DStore? ==> d.r < |rings|)
    && (d.DTail? ==> d.h == rings[d.r].head)
    && (d.DLook? || d.DClear? || d.DStore? ==> d.h == |rings[d.r].delivered|)
    && (d.DLook? || d.DClear? ==> d.h <= d.t <= rings[d.r].tail)
    && (d.DClear? ==> d.h < d.t && |rings[d.r].slots| == BUFFER_SIZE && rings[d.r].slots[d.h % BUFFER_SIZE] == Some(d.n))
  }

  ghost predicate RingsOk(rings: seq<Ring>, adders: seq<Adder>) {
    forall r :: 0 <= r < |rings| ==> RingOk(rings[r], r, adders)
  }

  ghost predicate AddersOk(s: State) {
    forall a :: 0 <= a < |s.adders| ==> AdderOk(s.adders[a], a, s.rings, s.arrays, s.current, s.busy)
  }

  ghost predicate Inv(s: State) {
    && RingsOk(s.rings, s.adders)
    && AddersOk(s)
    && ArraysOk(s.rings, s.arrays, s.current)
    && DrainOk(s.drain, s.rings)
  }
}
