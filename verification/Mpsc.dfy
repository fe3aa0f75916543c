/**
  The growable multi-producer single-consumer queue, one atomic load, store or
  compare-and-swap at a time. An execution is any sequence of actions; every
  action lets one producer or the consumer take its next atomic step.
  Indices advance by two: an odd producerIndex is the resize lock.
*/
module Mpsc {
  import opened Arith
  import opened Options

  type Value(==, !new)

  /** What a cell of a buffer holds; the last cell of a buffer is its link. */
  datatype Slot = Nil | Elem(v: Value) | Jump | Link(buf: nat)

  /** Program counter and local variables of a producer inside TryPush. */
  datatype Pc =
    | Idle
    | LoadLimit(v: Value)
    | LoadIndex(v: Value, limit: nat)
    | LoadMask(v: Value, limit: nat, p: nat)
    | LoadBuffer(v: Value, limit: nat, p: nat, mask: nat)
    | SlowLoad(v: Value, limit: nat, p: nat, mask: nat, b: nat)
    | SlowDecide(v: Value, limit: nat, p: nat, mask: nat, b: nat, c: nat, wasFull: bool)
    | CasIndex(v: Value, limit: nat, p: nat, mask: nat, b: nat)
    | Publish(v: Value, p: nat, mask: nat, b: nat)
    | Grow(v: Value, p: nat, mask: nat, b: nat)
    | GrowMask(v: Value, p: nat, mask: nat, b: nat, nb: nat)
    | GrowElem(v: Value, p: nat, mask: nat, b: nat, nb: nat, newMask: nat)
    | GrowLink(v: Value, p: nat, mask: nat, b: nat, nb: nat, newMask: nat)
    | GrowLoad(v: Value, p: nat, mask: nat, b: nat, nb: nat, newMask: nat)
    | GrowLimit(v: Value, p: nat, mask: nat, b: nat, nb: nat, newMask: nat, c: nat)
    | GrowIndex(v: Value, p: nat, mask: nat, b: nat, nb: nat)
    | GrowJump(v: Value, p: nat, mask: nat, b: nat, nb: nat)
    | Pushed(v: Value, ticket: nat)
    | Refused(v: Value, wasFull: bool)
    | Crashed

  /** Program counter and local variables of the consumer inside TryPop. */
  datatype CPc =
    | CIdle
    | CLoad(b: nat, index: nat, mask: nat)
    | CCheck(b: nat, index: nat, mask: nat)
    | CSpin(b: nat, index: nat, mask: nat)
    | CHave(b: nat, index: nat, mask: nat, slot: Slot)
    | CLink(b: nat, index: nat, mask: nat)
    | CUnlink(b: nat, index: nat, mask: nat, link: Slot)
    | CSetBuffer(index: nat, next: nat)
    | CSetMask(index: nat, next: nat)
    | CTake(index: nat, next: nat, mask: nat)
    | CClear(index: nat, next: nat, mask: nat, v: Value)
    | CAdvance(index: nat, v: Value)
    | Popped(v: Value)
    | Empty(wasEmpty: bool)
    | CCrashed

  /**
    Shared fields, buffers in order of allocation, and history: `log` is the
    pushed values in the order their indices were reserved, `popped` the values
    taken, `starts[i]` the position of the first element stored in buffer i.
  */
  datatype State = State(
    maxQ: nat,
    pIdx: nat, pMask: nat, pBuf: nat, pLimit: nat,
    cIdx: nat, cMask: nat, cBuf: nat,
    bufs: seq<seq<Slot>>,
    prod: map<nat, Pc>, cons: CPc,
    log: seq<Value>, popped: seq<Value>, starts: seq<nat>)

  datatype Action = BeginPush(t: nat, v: Value) | Produce(t: nat) | BeginPop | Consume

  // ---------- The code, step by step ----------

  /** NewMPSC for the two capacities after rounding up to powers of two. */
  function New(initial: nat, max: nat): State
    requires initial >= 1
  {
    State(2 * max,
          0, 2 * (initial - 1), 0, 2 * (initial - 1),
          0, 2 * (initial - 1), 0,
          [seq(initial + 1, _ => Nil)], map[], CIdle, [], [], [0])
  }

  /** NewMPSC from the requested capacities; None where it panics. */
  function Create(initial: nat, max: nat): (q: Option<State>)
    requires initial <= 0x8000_0000 && max <= 0x8000_0000
  {
    if initial < 2 || max < 4 || RoundUpPow2(max) < RoundUpPow2(initial) then None
    else Some(New(RoundUpPow2(initial), RoundUpPow2(max)))
  }

  function PcOf(s: State, t: nat): Pc {
    if t in s.prod then s.prod[t] else Idle
  }

  function Goto(s: State, t: nat, pc: Pc): State {
    s.(prod := s.prod[t := pc])
  }

  /** modifiedCalcElementOffset: masking with 2 * capacity - 2, then halving. */
  function Offset(index: nat, mask: nat): nat {
    (index % (mask + 2)) / 2
  }

  /** nextArrayOffset: the cell behind the last element cell. */
  function LinkOffset(mask: nat): nat {
    (mask + 2) / 2
  }

  function CapacityOf(s: State, mask: nat): nat {
    if mask + 2 == s.maxQ then s.maxQ else mask
  }

  predicate InRange(s: State, b: nat, off: nat) {
    b < |s.bufs| && off < |s.bufs[b]|
  }

  function Put(s: State, b: nat, off: nat, x: Slot): State
    requires InRange(s, b, off)
  {
    s.(bufs := s.bufs[b := s.bufs[b][off := x]])
  }

  function SlowStep(s: State, t: nat, pc: Pc): State
    requires pc.SlowDecide?
  {
    var cap := CapacityOf(s, pc.mask);
    if pc.c + cap > pc.p then
      if s.pLimit == pc.limit
      then Goto(s.(pLimit := pc.c + cap), t, CasIndex(pc.v, pc.c + cap, pc.p, pc.mask, pc.b))
      else Goto(s, t, LoadLimit(pc.v))
    else if s.maxQ - (pc.p - pc.c) <= 0 then
      Goto(s, t, Refused(pc.v, pc.wasFull))
    else if s.pIdx == pc.p then
      Goto(s.(pIdx := pc.p + 1, log := s.log + [pc.v]), t, Grow(pc.v, pc.p, pc.mask, pc.b))
    else
      Goto(s, t, LoadLimit(pc.v))
  }

  function PushStep(s: State, t: nat, pc: Pc): State
    requires !pc.SlowDecide?
  {
    match pc
    case LoadLimit(v) => Goto(s, t, LoadIndex(v, s.pLimit))
    case LoadIndex(v, limit) =>
      if s.pIdx % 2 == 1 then Goto(s, t, LoadLimit(v)) else Goto(s, t, LoadMask(v, limit, s.pIdx))
    case LoadMask(v, limit, p) => Goto(s, t, LoadBuffer(v, limit, p, s.pMask))
    case LoadBuffer(v, limit, p, mask) =>
      if limit <= p then Goto(s, t, SlowLoad(v, limit, p, mask, s.pBuf))
      else Goto(s, t, CasIndex(v, limit, p, mask, s.pBuf))
    case SlowLoad(v, limit, p, mask, b) =>
      Goto(s, t, SlowDecide(v, limit, p, mask, b, s.cIdx, s.pIdx == p && p - s.cIdx == s.maxQ))
    case CasIndex(v, limit, p, mask, b) =>
      if s.pIdx == p
      then Goto(s.(pIdx := p + 2, log := s.log + [v]), t, Publish(v, p, mask, b))
      else Goto(s, t, LoadLimit(v))
    case Publish(v, p, mask, b) =>
      if !InRange(s, b, Offset(p, mask)) then Goto(s, t, Crashed)
      else Goto(Put(s, b, Offset(p, mask), Elem(v)), t, Pushed(v, p / 2))
    case _ => s
  }

  function GrowStep(s: State, t: nat, pc: Pc): State {
    match pc
    case Grow(v, p, mask, b) =>
      if b >= |s.bufs| || |s.bufs[b]| < 2 || s.maxQ / 2 < |s.bufs[b]| then Goto(s, t, Crashed)
      else
        var newLen := 2 * (|s.bufs[b]| - 1) + 1;
        var nb := |s.bufs|;
        Goto(s.(bufs := s.bufs + [seq(newLen, _ => Nil)], pBuf := nb, starts := s.starts + [p / 2]),
             t, GrowMask(v, p, mask, b, nb))
    case GrowMask(v, p, mask, b, nb) =>
      if nb >= |s.bufs| || |s.bufs[nb]| < 2 then Goto(s, t, Crashed)
      else
        var newMask := 2 * (|s.bufs[nb]| - 2);
        Goto(s.(pMask := newMask), t, GrowElem(v, p, mask, b, nb, newMask))
    case GrowElem(v, p, mask, b, nb, newMask) =>
      if !InRange(s, nb, Offset(p, newMask)) then Goto(s, t, Crashed)
      else Goto(Put(s, nb, Offset(p, newMask), Elem(v)), t, GrowLink(v, p, mask, b, nb, newMask))
    case GrowLink(v, p, mask, b, nb, newMask) =>
      if !InRange(s, b, LinkOffset(mask)) then Goto(s, t, Crashed)
      else Goto(Put(s, b, LinkOffset(mask), Link(nb)), t, GrowLoad(v, p, mask, b, nb, newMask))
    case GrowLoad(v, p, mask, b, nb, newMask) =>
      Goto(s, t, GrowLimit(v, p, mask, b, nb, newMask, s.cIdx))
    case GrowLimit(v, p, mask, b, nb, newMask, c) =>
      if p < c || s.maxQ - (p - c) <= 0 then Goto(s, t, Crashed)
      else Goto(s.(pLimit := p + Min(newMask, s.maxQ - (p - c))), t, GrowIndex(v, p, mask, b, nb))
    case GrowIndex(v, p, mask, b, nb) =>
      Goto(s.(pIdx := p + 2), t, GrowJump(v, p, mask, b, nb))
    case GrowJump(v, p, mask, b, nb) =>
      if !InRange(s, b, Offset(p, mask)) then Goto(s, t, Crashed)
      else Goto(Put(s, b, Offset(p, mask), Jump), t, Pushed(v, p / 2))
    case _ => s
  }

  function ProduceStep(s: State, t: nat): State {
    var pc := PcOf(s, t);
    if pc.SlowDecide? then SlowStep(s, t, pc)
    else if pc.Grow? || pc.GrowMask? || pc.GrowElem? || pc.GrowLink? || pc.GrowLoad? || pc.GrowLimit?
            || pc.GrowIndex? || pc.GrowJump? then GrowStep(s, t, pc)
    else PushStep(s, t, pc)
  }

  function AfterRead(pc: CPc, slot: Slot): CPc
    requires pc.CLoad? || pc.CCheck? || pc.CSpin?
  {
    if slot.Nil? then (if pc.CLoad? then CCheck(pc.b, pc.index, pc.mask) else CSpin(pc.b, pc.index, pc.mask))
    else CHave(pc.b, pc.index, pc.mask, slot)
  }

  function ConsumeStep(s: State): State {
    match s.cons
    case CLoad(b, index, mask) =>
      if !InRange(s, b, Offset(index, mask)) then s.(cons := CCrashed)
      else s.(cons := AfterRead(s.cons, s.bufs[b][Offset(index, mask)]))
    case CCheck(b, index, mask) =>
      if index == s.pIdx then s.(cons := Empty(|s.log| == |s.popped|))
      else s.(cons := CSpin(b, index, mask))
    case CSpin(b, index, mask) =>
      if !InRange(s, b, Offset(index, mask)) then s.(cons := CCrashed)
      else s.(cons := AfterRead(s.cons, s.bufs[b][Offset(index, mask)]))
    case CHave(b, index, mask, slot) =>
      if slot.Jump? then s.(cons := CLink(b, index, mask))
      else if !slot.Elem? || !InRange(s, b, Offset(index, mask)) then s.(cons := CCrashed)
      else Put(s, b, Offset(index, mask), Nil).(popped := s.popped + [slot.v], cons := CAdvance(index, slot.v))
    case CLink(b, index, mask) =>
      if !InRange(s, b, LinkOffset(mask)) then s.(cons := CCrashed)
      else s.(cons := CUnlink(b, index, mask, s.bufs[b][LinkOffset(mask)]))
    case CUnlink(b, index, mask, link) =>
      if !link.Link? || !InRange(s, b, LinkOffset(mask)) then s.(cons := CCrashed)
      else Put(s, b, LinkOffset(mask), Nil).(cons := CSetBuffer(index, link.buf))
    case CSetBuffer(index, next) => s.(cBuf := next, cons := CSetMask(index, next))
    case CSetMask(index, next) =>
      if next >= |s.bufs| || |s.bufs[next]| < 2 then s.(cons := CCrashed)
      else
        var mask := 2 * (|s.bufs[next]| - 2);
        s.(cMask := mask, cons := CTake(index, next, mask))
    case CTake(index, next, mask) =>
      if !InRange(s, next, Offset(index, mask)) || !s.bufs[next][Offset(index, mask)].Elem?
      then s.(cons := CCrashed)
      else s.(cons := CClear(index, next, mask, s.bufs[next][Offset(index, mask)].v))
    case CClear(index, next, mask, v) =>
      if !InRange(s, next, Offset(index, mask)) then s.(cons := CCrashed)
      else Put(s, next, Offset(index, mask), Nil).(popped := s.popped + [v], cons := CAdvance(index, v))
    case CAdvance(index, v) => s.(cIdx := index + 2, cons := Popped(v))
    case _ => s
  }

  function Step(s: State, a: Action): State {
    match a
    case BeginPush(t, v) =>
      var pc := PcOf(s, t);
      if pc.Idle? || pc.Pushed? || pc.Refused? then Goto(s, t, LoadLimit(v)) else s
    case Produce(t) => ProduceStep(s, t)
    case BeginPop =>
      if s.cons.CIdle? || s.cons.Popped? || s.cons.Empty?
      then s.(cons := CLoad(s.cBuf, s.cIdx, s.cMask)) else s
    case Consume => ConsumeStep(s)
  }

  function Run(s: State, actions: seq<Action>): State
    decreases |actions|
  {
    if actions == [] then s
    else Run(Step(s, actions[0]), actions[1..])
  }
}
