/**
  An operation with nobody else about. The activity begun last runs first: a drain that was handed over
  runs to its end before its scheduler goes on, inside it or beside it.
*/
module MaintenanceAlone {
  import opened Maintenance
  import opened MaintenanceSafety
  import opened MaintenanceTheorems

  /** The last activity that is not done, or -1. */
  function Newest(acts: seq<Pc>): (x: int)
    ensures -1 <= x < |acts| && (x >= 0 ==> !acts[x].Done?)
    ensures forall b :: x < b < |acts| ==> acts[b].Done?
  {
    if acts == [] then -1
    else if !acts[|acts| - 1].Done? then |acts| - 1
    else Newest(acts[..|acts| - 1])
  }

  /** Up to `fuel` steps, until everything is done. */
  function Settle(s: State, inline: bool, fuel: nat): State
    decreases fuel
  {
    if fuel == 0 || Newest(s.acts) == -1 then s else Settle(GoStep(s, Newest(s.acts), inline), inline, fuel - 1)
  }

  function OperationAlone(s: State, op: Op, inline: bool, fuel: nat): State {
    Settle(Step(s, Begin(op)), inline, fuel)
  }

  // ---------- Where the operation and its drain can be ----------

  /** Nobody is asked to drain unless something waits. */
  predicate Unasked(s: State) {
    !s.locked && !Processing(s.status) && (s.status.Idle? ==> s.buffer == [])
  }

  /** The drain of activity x, while nobody can add to the buffer. */
  predicate Drainer(s: State, x: nat)
    requires x < |s.acts|
  {
    match s.acts[x]
    case JobTryLock(tok) => s.locked && tok < |s.tokens| && !s.tokens[tok]
    case JobToken(tok) => s.locked && tok < |s.tokens| && !s.tokens[tok]
    case Lock(handed) => !s.locked
    case MStart => s.locked
    case MPop(i) => s.locked && s.status.ToIdle? && i + |s.buffer| <= s.capacity
    case MBody => s.locked && s.status.ToIdle? && s.buffer == []
    case MLoad => s.locked && s.status.ToIdle? && s.buffer == []
    case MCas => s.locked && s.status.ToIdle? && s.buffer == []
    case MUnlock => s.locked && s.status.Idle? && s.buffer == []
    case Reschedule => !s.locked && s.status.Idle? && s.buffer == []
    case Done => !s.locked && s.status.Idle? && s.buffer == []
    case _ => false
  }

  /** The operation before it has handed a drain over. */
  predicate Asking(s: State, w: nat)
    requires w < |s.acts|
  {
    match s.acts[w]
    case Push(left) => Unasked(s)
    case SawLoad => !s.locked && !Processing(s.status)
    case SawCasIdle => !s.locked && s.status.Idle?
    case SdbLoad(k) => !s.locked && !Processing(s.status)
    case SdbTryLock(k) => !s.locked && !Processing(s.status)
    case SdbRecheck(k) => s.locked && !Processing(s.status)
    case SdbStore(k) => s.locked && !Processing(s.status)
    case SdbHand(k) => s.locked
    case PeekLock => Unasked(s)
    case PeekLoad => s.locked && !Processing(s.status) && (s.status.Idle? ==> s.buffer == [])
    case _ => false
  }

  predicate Waiting(pc: Pc) {
    pc.SdbWait? || pc.SdbToken?
  }

  /** The operation waits for the drain j it has handed over, or has just been overtaken by it. */
  predicate Handed(s: State, w: nat, j: nat)
    requires w < |s.acts| && j < |s.acts| && Waiting(s.acts[w])
  {
    var tok := s.acts[w].tok;
    && (s.acts[w].SdbWait? ==> s.acts[w].job == j)
    && tok < |s.tokens| && Drainer(s, j) && !s.acts[j].Lock?
    && (if s.acts[j].JobTryLock? || s.acts[j].JobToken? then s.acts[j].tok == tok else s.tokens[tok])
  }

  ghost predicate OthersDone(s: State, w: nat, j: nat) {
    forall b :: 0 <= b < |s.acts| && b != w && b != j ==> s.acts[b].Done?
  }

  predicate IsJob(pc: Pc) {
    pc.JobTryLock? || pc.JobToken?
  }

  /** Only the operation w is under way, with at most one drain of its own. */
  ghost predicate Solo(s: State, w: nat) {
    && w < |s.acts| && |s.buffer| <= s.capacity && (s.locked ==> s.releases != [])
    && if Waiting(s.acts[w])
       then w < |s.acts| - 1 && OthersDone(s, w, |s.acts| - 1) && Handed(s, w, |s.acts| - 1)
       else OthersDone(s, w, w) && (Asking(s, w) || (Drainer(s, w) && !IsJob(s.acts[w])))
  }

  // ---------- How far it is to the end ----------

  function Times(left: nat, n: nat): nat {
    if left == 0 then n else Times(left - 1, n) + n
  }

  /** More than a round of asking for a drain and draining takes. */
  function Round(capacity: nat): nat {
    capacity + 25
  }

  function After(k: Cont, capacity: nat): nat {
    match k
    case Finish => 0
    case Retry(left) => Times(left, Round(capacity))
  }

  function DrainRank(pc: Pc, waiting: nat): nat {
    match pc
    case JobTryLock(_) => waiting + 10
    case JobToken(_) => waiting + 9
    case Lock(_) => waiting + 8
    case MStart => waiting + 7
    case MPop(_) => waiting + 6
    case MBody => 5
    case MLoad => 4
    case MCas => 3
    case MUnlock => 2
    case Reschedule => 1
    case _ => 0
  }

  function AskRank(pc: Pc, capacity: nat): nat {
    match pc
    case Push(left) => Times(left, Round(capacity))
    case SawLoad => capacity + 22
    case SawCasIdle => capacity + 21
    case SdbLoad(k) => After(k, capacity) + capacity + 20
    case SdbTryLock(k) => After(k, capacity) + capacity + 19
    case SdbRecheck(k) => After(k, capacity) + capacity + 18
    case SdbStore(k) => After(k, capacity) + capacity + 17
    case SdbHand(k) => After(k, capacity) + capacity + 16
    case SdbWait(k, _, _) => After(k, capacity) + 2
    case SdbToken(k, _) => After(k, capacity) + 1
    case PeekLock => capacity + 10
    case PeekLoad => capacity + 9
    case _ => 0
  }

  function Rank(s: State, w: nat): nat
    requires w < |s.acts|
  {
    AskRank(s.acts[w], s.capacity) + DrainRank(s.acts[if Waiting(s.acts[w]) then |s.acts| - 1 else w], |s.buffer|)
  }

  // ---------- One step ----------

  /** What a step has to do: keep to the cases above, and come closer to the end. */
  ghost predicate Better(s: State, s': State, w: nat) {
    Solo(s, w) && Solo(s', w) && Rank(s', w) < Rank(s, w)
  }

  lemma AskStep(s: State, w: nat)
    requires Solo(s, w) && Writing(s.acts[w])
    ensures Better(s, WriterStep(s, w), w)
  {
    var s' := WriterStep(s, w);
    WriterOthers(s, w);
    if s.acts[w].Push? {
      TriedOnce(s.acts[w].left, s.capacity);
    }
  }

  lemma PeekOne(s: State, w: nat)
    requires Solo(s, w) && (s.acts[w].PeekLock? || s.acts[w].PeekLoad?)
    ensures Better(s, HolderStep(s, w), w)
  {
    HolderOthers(s, w);
  }

  lemma TriedOnce(left: nat, capacity: nat)
    ensures Times(left, Round(capacity)) >= capacity + 25
    ensures left > 0 ==> Times(left, Round(capacity)) == Times(left - 1, Round(capacity)) + capacity + 25
  {
  }

  lemma ScheduleOne(s: State, w: nat, inline: bool)
    requires Solo(s, w) && Scheduling(s.acts[w]) && !Waiting(s.acts[w]) && !s.acts[w].SdbHand?
    ensures Better(s, ScheduleStep(s, w, inline), w)
  {
    ScheduleOthers(s, w, inline);
  }

  lemma HandOne(s: State, w: nat, inline: bool)
    requires Solo(s, w) && s.acts[w].SdbHand?
    ensures Better(s, ScheduleStep(s, w, inline), w)
  {
    var s' := ScheduleStep(s, w, inline);
    assert s'.acts[|s.acts|] == JobTryLock(|s.tokens|);
    ScheduleOthers(s, w, inline);
  }

  /** The handed drain is over, and has the token. */
  lemma GoOn(s: State, w: nat, inline: bool)
    requires Solo(s, w) && Waiting(s.acts[w]) && s.acts[|s.acts| - 1].Done?
    ensures Better(s, ScheduleStep(s, w, inline), w)
  {
    ScheduleOthers(s, w, inline);
    var k := s.acts[w].k;
    assert k.Retry? ==> AskRank(Return(k), s.capacity) == After(k, s.capacity);
  }

  /** A step of a drain, by the operation itself or by the drain it has handed over. */
  ghost predicate Drains(s: State, s': State, x: nat) {
    && x < |s.acts| == |s'.acts| && Drainer(s', x) && !s'.acts[x].Lock? && !s'.acts[x].JobTryLock?
    && s' == s.(locked := s'.locked, status := s'.status, buffer := s'.buffer, history := s'.history, tokens := s'.tokens,
                releases := s'.releases, fatal := s'.fatal, acts := s.acts[x := s'.acts[x]])
    && |s'.buffer| <= |s.buffer| && (s'.locked ==> s'.releases != [])
    && DrainRank(s'.acts[x], |s'.buffer|) < DrainRank(s.acts[x], |s.buffer|)
    && (if IsJob(s'.acts[x]) then IsJob(s.acts[x]) && s'.acts[x].tok == s.acts[x].tok && s'.tokens == s.tokens
        else if IsJob(s.acts[x]) then s.acts[x].tok < |s.tokens| && s'.tokens == s.tokens[s.acts[x].tok := true]
        else s'.tokens == s.tokens)
  }

  lemma DrainOne(s: State, x: nat)
    requires x < |s.acts| && Drainer(s, x) && !s.acts[x].Done? && |s.buffer| <= s.capacity && (s.locked ==> s.releases != [])
    ensures Drains(s, DrainStep(s, x), x)
  {
    hide DrainStep, Drains;
    var pc := s.acts[x];
    if IsJob(pc) || pc.Lock? {
      EnterOne(s, x);
    } else if pc.MStart? || pc.MPop? {
      PopOne(s, x);
    } else {
      LeaveOne(s, x);
    }
  }

  lemma EnterOne(s: State, x: nat)
    requires x < |s.acts| && Drainer(s, x) && (IsJob(s.acts[x]) || s.acts[x].Lock?) && (s.locked ==> s.releases != [])
    ensures Drains(s, DrainStep(s, x), x)
  {
  }

  lemma PopOne(s: State, x: nat)
    requires x < |s.acts| && Drainer(s, x) && (s.acts[x].MStart? || s.acts[x].MPop?) && |s.buffer| <= s.capacity && s.releases != []
    ensures Drains(s, DrainStep(s, x), x)
  {
  }

  lemma LeaveOne(s: State, x: nat)
    requires x < |s.acts| && Drainer(s, x) && (s.locked ==> s.releases != [])
    requires var pc := s.acts[x]; pc.MBody? || pc.MLoad? || pc.MCas? || pc.MUnlock? || pc.Reschedule?
    ensures Drains(s, DrainStep(s, x), x)
  {
  }

  lemma OwnDrainStep(s: State, s': State, w: nat)
    requires Solo(s, w) && Drainer(s, w) && !Waiting(s.acts[w]) && Drains(s, s', w)
    ensures Better(s, s', w)
  {
  }

  lemma HandedStep(s: State, s': State, w: nat)
    requires Solo(s, w) && Waiting(s.acts[w]) && Drains(s, s', |s.acts| - 1)
    ensures Better(s, s', w)
  {
    var j := |s.acts| - 1;
    assert s'.acts[w] == s.acts[w];
  }

  lemma SoloStep(s: State, w: nat, inline: bool)
    requires Solo(s, w) && Newest(s.acts) >= 0
    ensures Better(s, GoStep(s, Newest(s.acts), inline), w)
  {
    hide Better, WriterStep, ScheduleStep, DrainStep, HolderStep, Rank;
    var x := Newest(s.acts);
    if Waiting(s.acts[w]) && x == |s.acts| - 1 {
      DrainOne(s, x);
      HandedStep(s, GoStep(s, x, inline), w);
    } else {
      assert x == w;
      if Waiting(s.acts[w]) {
        GoOn(s, w, inline);
      } else if Drainer(s, w) {
        DrainOne(s, w);
        OwnDrainStep(s, GoStep(s, w, inline), w);
      } else if Writing(s.acts[w]) {
        AskStep(s, w);
      } else if Holding(s.acts[w]) {
        PeekOne(s, w);
      } else if s.acts[w].SdbHand? {
        HandOne(s, w, inline);
      } else {
        ScheduleOne(s, w, inline);
      }
    }
  }

  // ---------- To the end ----------

  lemma {:induction false} SettleOk(s: State, w: nat, inline: bool, fuel: nat)
    requires Solo(s, w) && fuel >= Rank(s, w) && Tasks(s)
    ensures var s' := Settle(s, inline, fuel);
      Newest(s'.acts) == -1 && Solo(s', w) && Tasks(s') && (Writer(s, w) ==> Writer(s', w)) && s.history.log <= s'.history.log
    decreases fuel
  {
    hide Solo, Rank, Tasks, Writer, GoStep;
    if Newest(s.acts) >= 0 {
      var x := Newest(s.acts);
      var s1 := GoStep(s, x, inline);
      SoloStep(s, w, inline);
      TasksStep(s, x, inline);
      assert Step(s, Go(x, inline)) == s1;
      if Writer(s, w) {
        WriterStays(s, Go(x, inline), w);
      }
      LogGrows(s, x, inline);
      SettleOk(s1, w, inline, fuel - 1);
    }
  }

  lemma LogGrows(s: State, a: nat, inline: bool)
    requires Tasks(s) && a < |s.acts|
    ensures s.history.log <= GoStep(s, a, inline).history.log
  {
    hide Tasks, WriterStep, HolderStep, ScheduleStep, DrainStep;
    var pc := s.acts[a];
    if pc.Push? {
      PushLog(s, a);
    } else if pc.MBody? {
      HelpLog(s, a);
    } else if ((pc.MPop? && pc.i <= s.capacity) || pc.InvPop?) && s.buffer != [] {
      TakenStep(s, a);
    } else {
      QuietStep(s, a, inline);
    }
  }

  lemma PushLog(s: State, a: nat)
    requires a < |s.acts| && s.acts[a].Push?
    ensures s.history.log <= WriterStep(s, a).history.log
  {
  }

  lemma HelpLog(s: State, a: nat)
    requires a < |s.acts| && s.acts[a].MBody?
    ensures s.history.log <= DrainStep(s, a).history.log
  {
  }

  lemma RestingState(s: State)
    requires Inv(s) && AllDone(s)
    ensures Unasked(s)
  {
    hide Tokens;
    FirstWaits(s.buffer);
  }

  lemma StartsAlone(s: State, op: Op)
    requires Unasked(s) && AllDone(s) && |s.buffer| <= s.capacity && !op.InvalidateAll?
    ensures Solo(Step(s, Begin(op)), |s.acts|)
    ensures Rank(Step(s, Begin(op)), |s.acts|) <= Times(WRITE_BUFFER_RETRIES, Round(s.capacity))
  {
    TriedOnce(WRITE_BUFFER_RETRIES, s.capacity);
  }

  lemma EndsAlone(s: State, w: nat)
    requires Solo(s, w) && Newest(s.acts) == -1 && Tasks(s)
    ensures AllDone(s) && !s.locked && s.status.Idle? && s.buffer == [] && s.history.ran == s.history.log
    ensures Writer(s, w) ==> (w in s.history.ran <==> w !in s.history.helped)
  {
    assert s.acts[w].Done?;
    if Writer(s, w) {
      TasksSay(s, w);
    }
  }

  /**
    An operation alone, after any run that has come to rest with no more tasks waiting than the buffer holds, on the
    default or on any other executor, and whether the drain runs inside its scheduler or beside it: when the operation
    and its drains are done nothing waits, the status is idle, and all tasks that waited, and its own, have been run.
  */
  lemma OperationAloneOk(capacity: nat, defaultExecutor: bool, before: seq<Action>, op: Op, inline: bool, fuel: nat)
    requires var s := Run(New(capacity, defaultExecutor), before); AllDone(s) && |s.buffer| <= capacity
    requires !op.InvalidateAll? && fuel >= Times(WRITE_BUFFER_RETRIES, Round(capacity))
    ensures var s := Run(New(capacity, defaultExecutor), before); var s' := OperationAlone(s, op, inline, fuel);
      && AllDone(s') && !s'.locked && s'.status.Idle? && s'.buffer == []
      && s'.history.ran == s'.history.log && s.history.log <= s'.history.log
      && (op.Write? ==> (|s.acts| in s'.history.ran <==> |s.acts| !in s'.history.helped))
  {
    hide Tasks, Step, Inv, AllDone, Settle, Solo, Writer;
    var q := New(capacity, defaultExecutor);
    var s := Run(q, before);
    Reachable(capacity, defaultExecutor, before);
    RunExecutor(q, before);
    RestingState(s);
    StartsAlone(s, op);
    NoTasks(capacity, defaultExecutor);
    TasksRun(q, before);
    TasksAction(s, Begin(op));
    NewWriter(s);
    BeginLog(s, op);
    SettleOk(Step(s, Begin(op)), |s.acts|, inline, fuel);
    EndsAlone(OperationAlone(s, op, inline, fuel), |s.acts|);
  }

  lemma BeginLog(s: State, op: Op)
    ensures Step(s, Begin(op)).history == s.history
  {
  }

  // ---------- What InvalidateAll can leave behind ----------

  /** A write tries the mutex while InvalidateAll, which has emptied the buffer, is about to release it. */
  function Crossed(): seq<Action> {
    [Begin(InvalidateAll), Go(0, false), Go(0, false), Begin(Write), Go(1, false), Go(1, false), Go(1, false),
     Go(1, false), Go(1, false), Go(0, false)]
  }

  /** The states that run passes through. */
  function Crossing(i: nat): State
    requires i <= 10
  {
    var none := History([], [], {}, {});
    var one := History([1], [], {}, {});
    match i
    case 0 => State(Idle, false, [], [], [], 4, true, [], [], false, none)
    case 1 => State(Idle, false, [], [], [InvLock], 4, true, [], [], false, none)
    case 2 => State(Idle, true, [], [], [InvPop], 4, true, [], [0], false, none)
    case 3 => State(Idle, true, [], [], [InvUnlock], 4, true, [], [0], false, none)
    case 4 => State(Idle, true, [], [], [InvUnlock, Push(100)], 4, true, [], [0], false, none)
    case 5 => State(Idle, true, [], [1], [InvUnlock, SawLoad], 4, true, [], [0], false, one)
    case 6 => State(Idle, true, [], [1], [InvUnlock, SawCasIdle], 4, true, [], [0], false, one)
    case 7 => State(Required, true, [], [1], [InvUnlock, SdbLoad(Finish)], 4, true, [], [0], false, one)
    case 8 => State(Required, true, [], [1], [InvUnlock, SdbTryLock(Finish)], 4, true, [], [0], false, one)
    case 9 => State(Required, true, [], [1], [InvUnlock, Done], 4, true, [], [0], false, one)
    case _ => State(Required, false, [], [1], [Done, Done], 4, true, [], [1], false, one)
  }

  lemma CrossingStep(i: nat)
    requires i < 10
    ensures Step(Crossing(i), Crossed()[i]) == Crossing(i + 1)
  {
    if i < 4 {
      FirstSteps(i);
    } else {
      LastSteps(i);
    }
  }

  lemma FirstSteps(i: nat)
    requires i < 4
    ensures Step(Crossing(i), Crossed()[i]) == Crossing(i + 1)
  {
  }

  lemma LastSteps(i: nat)
    requires 4 <= i < 10
    ensures Step(Crossing(i), Crossed()[i]) == Crossing(i + 1)
  {
  }

  lemma {:induction false} CrossingRun(i: nat)
    requires i <= 10
    ensures Run(Crossing(0), Crossed()[..i]) == Crossing(i)
  {
    hide Step, Crossing;
    var a := Crossed();
    if i > 0 {
      CrossingRun(i - 1);
      CrossingStep(i - 1);
      assert a[..i] == a[..i - 1] + [a[i - 1]];
      RunSplit(Crossing(0), a[..i - 1], [a[i - 1]]);
      assert Run(Crossing(i - 1), [a[i - 1]]) == Step(Crossing(i - 1), a[i - 1]);
    }
  }

  /** On the default executor, too, all can be done while a task waits: that of a write which met InvalidateAll holding the mutex. */
  lemma LeftBehind()
    ensures var s := Run(New(4, true), Crossed());
      AllDone(s) && s.buffer == [1] && s.status.Required? && exists i :: 0 <= i < |Crossed()| && Invalidates(Crossed()[i])
  {
    hide Run, Step;
    CrossingRun(10);
    assert Crossed()[..10] == Crossed();
    assert Invalidates(Crossed()[0]);
  }
}
