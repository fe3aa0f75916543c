/**
  The maintenance protocol of the cache: the four-state drain status, the
  eviction mutex, and the token by which the scheduler of a drain and the
  drain itself agree on who releases the mutex. Any number of activities
  (writers, readers, clean-ups, drains handed to the executor) take one
  atomic step at a time, in any order.
*/
module Maintenance {

  datatype Status = Idle | Required | ToIdle | ToRequired

  predicate Processing(st: Status) {
    st.ToIdle? || st.ToRequired?
  }

  /** What an activity does after scheduleDrainBuffers returns. */
  datatype Cont = Finish | Retry(left: nat)

  /** Program counters. A writer's task is named after the writer's activity. */
  datatype Pc =
    // afterWriteTask and scheduleAfterWrite
    | Push(left: nat)
    | SawLoad
    | SawCasIdle
    | SawCasProcessing
    // scheduleDrainBuffers
    | SdbLoad(k: Cont)
    | SdbTryLock(k: Cont)
    | SdbRecheck(k: Cont)
    | SdbGiveUp(k: Cont)
    | SdbStore(k: Cont)
    | SdbHand(k: Cont)
    | SdbWait(k: Cont, tok: nat, job: nat)
    | SdbToken(k: Cont, tok: nat)
    | SdbUnlock(k: Cont)
    // drainBuffers, run by the executor
    | JobTryLock(tok: nat)
    | JobToken(tok: nat)
    // performCleanUp and maintenance
    | Lock(handed: bool)
    | MStart
    | MPop(i: nat)
    | MBody
    | MLoad
    | MCas
    | MStore
    | MUnlock
    | Reschedule
    // InvalidateAll, and readers of the policy (GetMaximum, WeightedSize)
    | InvLock
    | InvPop
    | InvUnlock
    | PeekLock
    | PeekLoad
    | Done

  /**
    What became of the writers' tasks: `log` lists those pushed, in order, `ran` those taken out of the buffer
    and run; `own` are the tasks writers keep to themselves because the buffer stayed full, `helped` those run
    by their writers.
  */
  datatype History = History(log: seq<nat>, ran: seq<nat>, own: set<nat>, helped: set<nat>)

  /**
    `tokens[i]` is set once the i-th handed drain's token is taken, `schedulers[i]`
    is the activity that handed it over. `releases` counts, per acquisition of the
    mutex, how often it was released; `fatal` records an unlock of a free mutex.
  */
  datatype State = State(
    status: Status, locked: bool, tokens: seq<bool>, buffer: seq<nat>, acts: seq<Pc>,
    capacity: nat, defaultExecutor: bool,
    schedulers: seq<nat>, releases: seq<nat>, fatal: bool, history: History)

  datatype Op = Write | Schedule | CleanUp | InvalidateAll | Peek

  /** Begin starts an activity; Go lets activity a take a step, a handed drain running inside its scheduler if `inline`. */
  datatype Action = Begin(op: Op) | Go(a: nat, inline: bool)

  const WRITE_BUFFER_RETRIES: nat := 100

  function New(capacity: nat, defaultExecutor: bool): State {
    State(Idle, false, [], [], [], capacity, defaultExecutor, [], [], false, History([], [], {}, {}))
  }

  function Goto(s: State, a: nat, pc: Pc): State
    requires a < |s.acts|
  {
    s.(acts := s.acts[a := pc])
  }

  function Return(k: Cont): Pc {
    match k
    case Finish => Done
    case Retry(left) => Push(left)
  }

  function Acquire(s: State): State {
    s.(locked := true, releases := s.releases + [0])
  }

  function Release(s: State): State {
    if !s.locked || s.releases == [] then s.(fatal := true)
    else
      var last := |s.releases| - 1;
      s.(locked := false, releases := s.releases[last := s.releases[last] + 1])
  }

  /** A new task goes to the end of the buffer. */
  function Pushed(s: State, x: nat): State {
    s.(buffer := s.buffer + [x], history := s.history.(log := s.history.log + [x]))
  }

  /** The oldest task is taken out of the buffer and run. */
  function Ran(s: State): State
    requires s.buffer != []
  {
    s.(buffer := s.buffer[1..], history := s.history.(ran := s.history.ran + [s.buffer[0]]))
  }

  /** The task of a writer that does the maintenance itself is run, if it has one left. */
  function Helped(s: State, a: nat): State {
    if a in s.history.own
    then s.(history := s.history.(own := s.history.own - {a}, helped := s.history.helped + {a}))
    else s
  }

  function First(op: Op): Pc {
    match op
    case Write => Push(WRITE_BUFFER_RETRIES)
    case Schedule => SdbLoad(Finish)
    case CleanUp => Lock(false)
    case InvalidateAll => InvLock
    case Peek => PeekLock
  }

  /** afterWriteTask and scheduleAfterWrite. */
  function WriterStep(s: State, a: nat): State
    requires a < |s.acts|
  {
    match s.acts[a]
    case Push(left) =>
      if left == 0 then Goto(s.(history := s.history.(own := s.history.own + {a})), a, Lock(false))
      else if |s.buffer| < s.capacity then Goto(Pushed(s, a), a, SawLoad)
      else Goto(s, a, SdbLoad(Retry(left - 1)))
    case SawLoad =>
      (match s.status
       case Idle => Goto(s, a, SawCasIdle)
       case Required => Goto(s, a, SdbLoad(Finish))
       case ToIdle => Goto(s, a, SawCasProcessing)
       case ToRequired => Goto(s, a, Done))
    case SawCasIdle =>
      Goto(if s.status.Idle? then s.(status := Required) else s, a, SdbLoad(Finish))
    case SawCasProcessing =>
      if s.status.ToIdle? then Goto(s.(status := ToRequired), a, Done) else Goto(s, a, SawLoad)
    case _ => s
  }

  /** scheduleDrainBuffers, up to the release by the scheduler. */
  function ScheduleStep(s: State, a: nat, inline: bool): State
    requires a < |s.acts|
  {
    match s.acts[a]
    case SdbLoad(k) => Goto(s, a, if Processing(s.status) then Return(k) else SdbTryLock(k))
    case SdbTryLock(k) => if s.locked then Goto(s, a, Return(k)) else Goto(Acquire(s), a, SdbRecheck(k))
    case SdbRecheck(k) => Goto(s, a, if Processing(s.status) then SdbGiveUp(k) else SdbStore(k))
    case SdbGiveUp(k) => Goto(Release(s), a, Return(k))
    case SdbStore(k) => Goto(s.(status := ToIdle), a, SdbHand(k))
    case SdbHand(k) =>
      var tok, job := |s.tokens|, |s.acts|;
      var s1 := Goto(s, a, if inline && !s.defaultExecutor then SdbWait(k, tok, job) else SdbToken(k, tok));
      s1.(acts := s1.acts + [JobTryLock(tok)], tokens := s.tokens + [false], schedulers := s.schedulers + [a])
    case SdbWait(k, tok, job) =>
      if job < |s.acts| && s.acts[job].Done? then Goto(s, a, SdbToken(k, tok)) else s
    case SdbToken(k, tok) =>
      if tok < |s.tokens| && !s.tokens[tok] then Goto(s.(tokens := s.tokens[tok := true]), a, SdbUnlock(k))
      else Goto(s, a, Return(k))
    case SdbUnlock(k) => Goto(Release(s), a, Return(k))
    case _ => s
  }

  /** drainBuffers, performCleanUp, maintenance and what follows it. */
  function DrainStep(s: State, a: nat): State
    requires a < |s.acts|
  {
    match s.acts[a]
    case JobTryLock(tok) => if s.locked then Goto(s, a, JobToken(tok)) else Goto(Acquire(s), a, MStart)
    case JobToken(tok) =>
      if tok < |s.tokens| && !s.tokens[tok] then Goto(s.(tokens := s.tokens[tok := true]), a, MStart)
      else Goto(s, a, Lock(true))
    case Lock(handed) => if s.locked then s else Goto(Acquire(s), a, MStart)
    case MStart => Goto(s.(status := ToIdle), a, MPop(0))
    case MPop(i) =>
      if i > s.capacity then Goto(s.(status := ToRequired), a, MBody)
      else if s.buffer == [] then Goto(s, a, MBody)
      else Goto(Ran(s), a, MPop(i + 1))
    case MBody => Goto(Helped(s, a), a, MLoad)
    case MLoad => Goto(s, a, if s.status.ToIdle? then MCas else MStore)
    case MCas => if s.status.ToIdle? then Goto(s.(status := Idle), a, MUnlock) else Goto(s, a, MStore)
    case MStore => Goto(s.(status := Required), a, MUnlock)
    case MUnlock => Goto(Release(s), a, Reschedule)
    case Reschedule => Goto(s, a, if s.status.Required? && s.defaultExecutor then SdbLoad(Finish) else Done)
    case _ => s
  }

  /** Other holders of the mutex. */
  function HolderStep(s: State, a: nat): State
    requires a < |s.acts|
  {
    match s.acts[a]
    case InvLock => if s.locked then s else Goto(Acquire(s), a, InvPop)
    case InvPop => if s.buffer == [] then Goto(s, a, InvUnlock) else Ran(s)
    case InvUnlock => Goto(Release(s), a, Done)
    case PeekLock => if s.locked then s else Goto(Acquire(s), a, PeekLoad)
    case PeekLoad => Goto(s, a, if s.status.Required? then MStart else MUnlock)
    case _ => s
  }

  predicate Writing(pc: Pc) {
    pc.Push? || pc.SawLoad? || pc.SawCasIdle? || pc.SawCasProcessing?
  }

  predicate Holding(pc: Pc) {
    pc.InvLock? || pc.InvPop? || pc.InvUnlock? || pc.PeekLock? || pc.PeekLoad?
  }

  predicate Scheduling(pc: Pc) {
    || pc.SdbLoad? || pc.SdbTryLock? || pc.SdbRecheck? || pc.SdbGiveUp? || pc.SdbStore? || pc.SdbHand?
    || pc.SdbWait? || pc.SdbToken? || pc.SdbUnlock?
  }

  function GoStep(s: State, a: nat, inline: bool): State
    requires a < |s.acts|
  {
    var pc := s.acts[a];
    if Writing(pc) then WriterStep(s, a)
    else if Holding(pc) then HolderStep(s, a)
    else if Scheduling(pc) then ScheduleStep(s, a, inline)
    else DrainStep(s, a)
  }

  function Step(s: State, x: Action): State {
    match x
    case Begin(op) => s.(acts := s.acts + [First(op)])
    case Go(a, inline) => if a < |s.acts| then GoStep(s, a, inline) else s
  }

  function Run(s: State, actions: seq<Action>): State
    decreases |actions|
  {
    if actions == [] then s else Run(Step(s, actions[0]), actions[1..])
  }

  // ---------- What must hold ----------

  /** The activity is responsible for releasing the mutex. */
  predicate Owner(s: State, a: nat)
    requires a < |s.acts|
  {
    var pc := s.acts[a];
    || pc.SdbRecheck? || pc.SdbGiveUp? || pc.SdbStore? || pc.SdbHand? || pc.SdbUnlock?
    || ((pc.SdbWait? || pc.SdbToken?) && pc.tok < |s.tokens| && !s.tokens[pc.tok])
    || pc.MStart? || InBody(pc) || pc.MStore? || pc.MUnlock?
    || pc.InvPop? || pc.InvUnlock? || pc.PeekLoad?
  }

  /** Inside maintenance, from the first pop to the last check of the status. */
  predicate InBody(pc: Pc) {
    pc.MPop? || AfterPops(pc)
  }

  predicate AfterPops(pc: Pc) {
    pc.MBody? || pc.MLoad? || pc.MCas?
  }

  /** A drain whose pop loop has not finished: handed to the executor, or running. */
  predicate Draining(pc: Pc) {
    pc.SdbHand? || pc.JobTryLock? || pc.JobToken? || (pc.Lock? && pc.handed) || pc.MStart? || pc.MPop?
  }

  /** The writer of task x has not yet acted on a drain status. */
  predicate Undecided(s: State, x: nat) {
    x < |s.acts| && (s.acts[x].SawLoad? || s.acts[x].SawCasProcessing?)
  }

  predicate InScheduleAfterWrite(s: State, x: nat) {
    Undecided(s, x) || (x < |s.acts| && s.acts[x].SawCasIdle?)
  }

  /** A writer still trying to push its task, possibly on a detour through scheduleDrainBuffers. */
  predicate BeforePush(pc: Pc) {
    pc.Push? || (Scheduling(pc) && pc.k.Retry?)
  }

  ghost predicate Locks(s: State) {
    && !s.fatal
    && (forall a, b :: 0 <= a < |s.acts| && 0 <= b < |s.acts| && Owner(s, a) && Owner(s, b) ==> a == b)
    && (s.locked <==> exists a :: 0 <= a < |s.acts| && Owner(s, a))
    && (forall i :: 0 <= i < |s.releases| - (if s.locked then 1 else 0) ==> s.releases[i] == 1)
    && (s.locked ==> |s.releases| > 0 && s.releases[|s.releases| - 1] == 0)
  }

  ghost predicate Tokens(s: State) {
    && |s.tokens| == |s.schedulers|
    && (forall i :: 0 <= i < |s.tokens| && !s.tokens[i] ==>
          s.schedulers[i] < |s.acts| && AwaitsToken(s.acts[s.schedulers[i]], i))
    && (forall a :: 0 <= a < |s.acts| ==> HoldsToken(s, a))
  }

  predicate AwaitsToken(pc: Pc, i: nat) {
    (pc.SdbWait? || pc.SdbToken?) && pc.tok == i
  }

  predicate HoldsToken(s: State, a: nat)
    requires a < |s.acts|
  {
    var pc := s.acts[a];
    && (pc.SdbWait? || pc.SdbToken? || pc.JobTryLock? || pc.JobToken? ==> pc.tok < |s.tokens|)
  }

  ghost predicate Phases(s: State) {
    && (forall a :: 0 <= a < |s.acts| && InBody(s.acts[a]) ==> Processing(s.status))
    && (forall a :: 0 <= a < |s.acts| && s.acts[a].SdbStore? ==> !Processing(s.status))
    && (forall a :: 0 <= a < |s.acts| && s.acts[a].MStore? ==> s.status.ToRequired?)
    && (Processing(s.status) ==>
          exists a :: 0 <= a < |s.acts| && (Draining(s.acts[a]) || AfterPops(s.acts[a]) || s.acts[a].MStore?))
  }

  ghost predicate Writes(s: State) {
    && (forall x :: x in s.buffer ==> x < |s.acts|)
    && (forall a :: 0 <= a < |s.acts| && AfterPops(s.acts[a]) && s.status.ToIdle? ==>
          forall x :: x in s.buffer ==> Undecided(s, x))
    && (s.status.Idle? ==> forall x :: x in s.buffer ==> InScheduleAfterWrite(s, x))
    && (forall x :: 0 <= x < |s.acts| && BeforePush(s.acts[x]) ==> x !in s.buffer)
  }

  ghost predicate Inv(s: State) {
    Locks(s) && Tokens(s) && Phases(s) && Writes(s)
  }
}
