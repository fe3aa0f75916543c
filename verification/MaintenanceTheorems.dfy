/** What the protocol promises in the end: tasks are run, once each, and nothing is left waiting. */
module MaintenanceTheorems {
  import opened Maintenance
  import opened MaintenanceSafety

  ghost predicate AllDone(s: State) {
    forall a :: 0 <= a < |s.acts| ==> s.acts[a].Done?
  }

  // ---------- Somebody attends to the request ----------

  /** The activity will look at the status, or takes the mutex to drain, before it is done. */
  predicate Attends(pc: Pc) {
    || Writing(pc) || pc.SdbLoad? || pc.SdbTryLock? || pc.SdbRecheck? || pc.SdbStore?
    || pc.Lock? || pc.MStart? || pc.MUnlock? || pc.Reschedule? || pc.PeekLock? || pc.PeekLoad?
  }

  ghost predicate Attended(s: State) {
    s.status.Required? ==> exists a :: 0 <= a < |s.acts| && Attends(s.acts[a])
  }

  /** A scheduler that owns the mutex, has seen or set a processing state, and has not given the mutex up. */
  predicate Committed(s: State, a: nat)
    requires a < |s.acts|
  {
    var pc := s.acts[a];
    || pc.SdbGiveUp? || pc.SdbHand? || pc.SdbUnlock?
    || ((pc.SdbWait? || pc.SdbToken?) && pc.tok < |s.tokens| && !s.tokens[pc.tok])
  }

  ghost predicate Commitments(s: State) {
    forall a :: 0 <= a < |s.acts| && Committed(s, a) ==> Processing(s.status)
  }

  predicate Invalidating(pc: Pc) {
    pc.InvLock? || pc.InvPop? || pc.InvUnlock?
  }

  ghost predicate NobodyInvalidates(s: State) {
    forall a :: 0 <= a < |s.acts| ==> !Invalidating(s.acts[a])
  }

  /** While a request stands and the mutex is held, its holder attends to it. */
  lemma HolderAttends(s: State)
    requires Inv(s) && Commitments(s) && NobodyInvalidates(s) && s.locked && s.status.Required?
    ensures exists o :: 0 <= o < |s.acts| && Owner(s, o) && Attends(s.acts[o])
  {
    var o :| 0 <= o < |s.acts| && Owner(s, o);
    assert !Committed(s, o) && !InBody(s.acts[o]) && !s.acts[o].MStore?;
  }

  // ----- Commitments -----

  lemma CommitmentsStep(s: State, a: nat, inline: bool)
    requires Inv(s) && Commitments(s) && a < |s.acts|
    ensures Commitments(GoStep(s, a, inline))
  {
    hide Inv, Commitments, Committed, WriterStep, HolderStep, ScheduleStep, DrainStep;
    Parts(s);
    var pc := s.acts[a];
    if Writing(pc) {
      WriterCommitments(s, a);
    } else if Holding(pc) {
      HolderCommitments(s, a);
    } else if Scheduling(pc) {
      ScheduleCommitments(s, a, inline);
    } else {
      DrainCommitments(s, a);
    }
  }

  lemma WriterCommitments(s: State, a: nat)
    requires Commitments(s) && a < |s.acts| && Writing(s.acts[a])
    ensures Commitments(WriterStep(s, a))
  {
    hide WriterStep;
    var s' := WriterStep(s, a);
    WriterOthers(s, a);
    WriterMoves(s, a);
    StaysProcessing(s, a);
    forall b | 0 <= b < |s'.acts| && Committed(s', b) ensures Processing(s'.status) {
      assert Committed(s, b);
    }
  }

  lemma StaysProcessing(s: State, a: nat)
    requires a < |s.acts|
    ensures Processing(s.status) ==> Processing(WriterStep(s, a).status)
  {
  }

  lemma HolderCommitments(s: State, a: nat)
    requires Commitments(s) && a < |s.acts| && Holding(s.acts[a])
    ensures Commitments(HolderStep(s, a))
  {
    var s' := HolderStep(s, a);
    forall b | 0 <= b < |s'.acts| && Committed(s', b) ensures Processing(s'.status) {
      assert Committed(s, b);
    }
  }

  lemma ScheduleCommitments(s: State, a: nat, inline: bool)
    requires Commitments(s) && Tokens(s) && a < |s.acts| && Scheduling(s.acts[a])
    ensures Commitments(ScheduleStep(s, a, inline))
  {
    hide Tokens, ScheduleStep;
    var s' := ScheduleStep(s, a, inline);
    ScheduleOthers(s, a, inline);
    OwnCommitment(s, a, inline);
    forall b | 0 <= b < |s'.acts| && Committed(s', b) ensures Processing(s'.status) {
      if b < |s.acts| && b != a {
        TokenKnown(s, b);
        assert Committed(s, b);
      }
    }
  }

  lemma OwnCommitment(s: State, a: nat, inline: bool)
    requires a < |s.acts| && Scheduling(s.acts[a]) && (Committed(s, a) ==> Processing(s.status))
    ensures var s' := ScheduleStep(s, a, inline);
      && |s.acts| <= |s'.acts| && (Committed(s', a) ==> Processing(s'.status))
      && (Processing(s.status) ==> Processing(s'.status))
      && |s.tokens| <= |s'.tokens| && forall i :: 0 <= i < |s.tokens| && s.tokens[i] ==> s'.tokens[i]
  {
  }

  lemma TokenKnown(s: State, b: nat)
    requires Tokens(s) && b < |s.acts|
    ensures s.acts[b].SdbWait? || s.acts[b].SdbToken? ==> s.acts[b].tok < |s.tokens|
  {
    assert HoldsToken(s, b);
  }

  lemma DrainCommitments(s: State, a: nat)
    requires Commitments(s) && Locks(s) && a < |s.acts| && !Writing(s.acts[a]) && !Holding(s.acts[a]) && !Scheduling(s.acts[a])
    ensures Commitments(DrainStep(s, a))
  {
    hide Locks, DrainStep;
    var s' := DrainStep(s, a);
    DrainOthers(s, a);
    OwnDrain(s, a);
    forall b | 0 <= b < |s'.acts| && Committed(s', b) ensures Processing(s'.status) {
      assert b != a && s'.acts[b] == s.acts[b];
      assert Committed(s, b);
      if Owner(s, a) {
        Alone(s, a, b);
      }
    }
  }

  /** What a step of a drain means for those who are committed, and that it concerns itself only. */
  ghost predicate Drained(s: State, s': State, a: nat) {
    && a < |s.acts| == |s'.acts| && !Committed(s', a) && !Invalidating(s'.acts[a])
    && (Processing(s.status) && !Owner(s, a) ==> Processing(s'.status))
    && |s.tokens| == |s'.tokens| && forall i :: 0 <= i < |s.tokens| && s.tokens[i] ==> s'.tokens[i]
  }

  lemma OwnDrain(s: State, a: nat)
    requires a < |s.acts| && !Writing(s.acts[a]) && !Holding(s.acts[a]) && !Scheduling(s.acts[a])
    ensures Drained(s, DrainStep(s, a), a)
  {
    hide DrainStep, Drained;
    var pc := s.acts[a];
    if pc.JobTryLock? || pc.JobToken? || pc.Lock? {
      EnterDrained(s, a);
    } else if pc.MStart? || pc.MPop? {
      PopDrained(s, a);
    } else if pc.MUnlock? || pc.Reschedule? || pc.Done? {
      LeaveDrained(s, a);
    } else {
      BodyDrained(s, a);
    }
  }

  lemma EnterDrained(s: State, a: nat)
    requires a < |s.acts| && (s.acts[a].JobTryLock? || s.acts[a].JobToken? || s.acts[a].Lock?)
    ensures Drained(s, DrainStep(s, a), a)
  {
  }

  lemma PopDrained(s: State, a: nat)
    requires a < |s.acts| && (s.acts[a].MStart? || s.acts[a].MPop?)
    ensures Drained(s, DrainStep(s, a), a)
  {
  }

  lemma BodyDrained(s: State, a: nat)
    requires a < |s.acts| && (s.acts[a].MBody? || s.acts[a].MLoad? || s.acts[a].MCas? || s.acts[a].MStore?)
    ensures Drained(s, DrainStep(s, a), a)
  {
  }

  lemma LeaveDrained(s: State, a: nat)
    requires a < |s.acts| && (s.acts[a].MUnlock? || s.acts[a].Reschedule? || s.acts[a].Done?)
    ensures Drained(s, DrainStep(s, a), a)
  {
  }

  // ----- Attendance -----

  lemma AttendedStep(s: State, a: nat, inline: bool)
    requires Inv(s) && Commitments(s) && NobodyInvalidates(s) && Attended(s) && s.defaultExecutor && a < |s.acts|
    ensures Attended(GoStep(s, a, inline))
  {
    hide Inv, Commitments, NobodyInvalidates, WriterStep, HolderStep, ScheduleStep, DrainStep, Attends;
    var s' := GoStep(s, a, inline);
    if s'.status.Required? {
      OthersGo(s, a, inline);
      RequestStep(s, a, inline);
      if s.status.Required? {
        var b :| 0 <= b < |s.acts| && Attends(s.acts[b]);
        if b == a && !Attends(s'.acts[a]) {
          HolderAttends(s);
          var o :| 0 <= o < |s.acts| && Owner(s, o) && Attends(s.acts[o]);
          assert s'.acts[o] == s.acts[o];
        } else {
          assert Attends(s'.acts[b]);
        }
      } else {
        assert Attends(s'.acts[a]);
      }
    }
  }

  lemma OthersGo(s: State, a: nat, inline: bool)
    requires a < |s.acts|
    ensures Moves(s, GoStep(s, a, inline), a)
  {
    hide WriterStep, HolderStep, ScheduleStep, DrainStep, Moves;
    if Writing(s.acts[a]) {
      WriterOthers(s, a);
    } else if Holding(s.acts[a]) {
      HolderOthers(s, a);
    } else if Scheduling(s.acts[a]) {
      ScheduleOthers(s, a, inline);
    } else {
      DrainOthers(s, a);
    }
  }

  lemma WriterOthers(s: State, a: nat)
    requires a < |s.acts| && Writing(s.acts[a])
    ensures Moves(s, WriterStep(s, a), a) && |WriterStep(s, a).acts| == |s.acts|
  {
    hide WriterStep;
    WriterMoves(s, a);
  }

  lemma HolderOthers(s: State, a: nat)
    requires a < |s.acts|
    ensures Moves(s, HolderStep(s, a), a) && |HolderStep(s, a).acts| == |s.acts|
  {
  }

  lemma ScheduleOthers(s: State, a: nat, inline: bool)
    requires a < |s.acts|
    ensures Moves(s, ScheduleStep(s, a, inline), a)
  {
  }

  lemma DrainOthers(s: State, a: nat)
    requires a < |s.acts|
    ensures Moves(s, DrainStep(s, a), a) && |DrainStep(s, a).acts| == |s.acts|
  {
  }

  ghost predicate Requests(s: State, s': State, a: nat) {
    && a < |s.acts| && a < |s'.acts|
    && if s.status.Required?
       then Attends(s.acts[a]) ==> Attends(s'.acts[a]) || (s.locked && s.acts[a].SdbTryLock?)
       else Attends(s'.acts[a])
  }

  /** An activity that attends to a standing request goes on doing so, unless the mutex it tried is held by another; one that makes a request attends to it. */
  lemma RequestStep(s: State, a: nat, inline: bool)
    requires a < |s.acts| && s.defaultExecutor && GoStep(s, a, inline).status.Required?
    ensures Requests(s, GoStep(s, a, inline), a)
  {
    hide WriterStep, HolderStep, ScheduleStep, DrainStep;
    if Writing(s.acts[a]) {
      WriterRequests(s, a);
    } else if Holding(s.acts[a]) {
      HolderRequests(s, a);
    } else if Scheduling(s.acts[a]) {
      ScheduleRequests(s, a, inline);
    } else {
      DrainRequests(s, a);
    }
  }

  lemma WriterRequests(s: State, a: nat)
    requires a < |s.acts| && Writing(s.acts[a]) && WriterStep(s, a).status.Required?
    ensures Requests(s, WriterStep(s, a), a)
  {
  }

  lemma HolderRequests(s: State, a: nat)
    requires a < |s.acts| && Holding(s.acts[a]) && HolderStep(s, a).status.Required?
    ensures Requests(s, HolderStep(s, a), a)
  {
  }

  lemma ScheduleRequests(s: State, a: nat, inline: bool)
    requires a < |s.acts| && Scheduling(s.acts[a]) && ScheduleStep(s, a, inline).status.Required?
    ensures Requests(s, ScheduleStep(s, a, inline), a)
  {
  }

  lemma DrainRequests(s: State, a: nat)
    requires a < |s.acts| && !Writing(s.acts[a]) && !Holding(s.acts[a]) && !Scheduling(s.acts[a])
    requires s.defaultExecutor && DrainStep(s, a).status.Required?
    ensures Requests(s, DrainStep(s, a), a)
  {
    hide DrainStep, Requests;
    var pc := s.acts[a];
    if pc.JobTryLock? || pc.JobToken? || pc.Lock? {
      EnterRequests(s, a);
    } else if pc.MStart? || pc.MPop? || pc.MBody? {
      PopRequests(s, a);
    } else {
      LeaveRequests(s, a);
    }
  }

  lemma EnterRequests(s: State, a: nat)
    requires a < |s.acts| && (s.acts[a].JobTryLock? || s.acts[a].JobToken? || s.acts[a].Lock?) && DrainStep(s, a).status.Required?
    ensures Requests(s, DrainStep(s, a), a)
  {
  }

  lemma PopRequests(s: State, a: nat)
    requires a < |s.acts| && (s.acts[a].MStart? || s.acts[a].MPop? || s.acts[a].MBody?) && DrainStep(s, a).status.Required?
    ensures Requests(s, DrainStep(s, a), a)
  {
  }

  lemma LeaveRequests(s: State, a: nat)
    requires a < |s.acts| && s.defaultExecutor && DrainStep(s, a).status.Required?
    requires var pc := s.acts[a]; pc.MLoad? || pc.MCas? || pc.MStore? || pc.MUnlock? || pc.Reschedule? || pc.Done?
    ensures Requests(s, DrainStep(s, a), a)
  {
  }

  lemma NobodyStep(s: State, a: nat, inline: bool)
    requires NobodyInvalidates(s) && a < |s.acts|
    ensures NobodyInvalidates(GoStep(s, a, inline))
  {
    hide GoStep;
    OwnKind(s, a, inline);
  }

  lemma OwnKind(s: State, a: nat, inline: bool)
    requires a < |s.acts| && !Invalidating(s.acts[a])
    ensures Moves(s, GoStep(s, a, inline), a) && !Invalidating(GoStep(s, a, inline).acts[a])
  {
    hide WriterStep, HolderStep, ScheduleStep, DrainStep, Moves;
    OthersGo(s, a, inline);
    if Writing(s.acts[a]) {
      WriterMoves(s, a);
    } else if Holding(s.acts[a]) {
      HolderKind(s, a);
    } else if Scheduling(s.acts[a]) {
      ScheduleKind(s, a, inline);
    } else {
      OwnDrain(s, a);
    }
  }

  lemma HolderKind(s: State, a: nat)
    requires a < |s.acts| && !Invalidating(s.acts[a]) && Holding(s.acts[a])
    ensures a < |HolderStep(s, a).acts| && !Invalidating(HolderStep(s, a).acts[a])
  {
  }

  lemma ScheduleKind(s: State, a: nat, inline: bool)
    requires a < |s.acts| && Scheduling(s.acts[a])
    ensures a < |ScheduleStep(s, a, inline).acts| && !Invalidating(ScheduleStep(s, a, inline).acts[a])
  {
  }

  ghost predicate Calm(s: State) {
    Inv(s) && Commitments(s) && NobodyInvalidates(s) && s.defaultExecutor
  }

  predicate Invalidates(x: Action) {
    x.Begin? && x.op.InvalidateAll?
  }

  lemma CalmStep(s: State, x: Action)
    requires Calm(s) && !Invalidates(x)
    ensures Calm(Step(s, x))
  {
    hide Inv, GoStep;
    StepOk(s, x);
    match x
    case Begin(op) => NewKind(s, op);
    case Go(a, inline) =>
      if a < |s.acts| {
        CommitmentsStep(s, a, inline);
        NobodyStep(s, a, inline);
        SameExecutor(s, a, inline);
      }
  }

  lemma SameExecutor(s: State, a: nat, inline: bool)
    requires a < |s.acts|
    ensures GoStep(s, a, inline).defaultExecutor == s.defaultExecutor && GoStep(s, a, inline).capacity == s.capacity
  {
    hide WriterStep, HolderStep, ScheduleStep, DrainStep;
    if Writing(s.acts[a]) {
      WriterMoves(s, a);
    } else if Holding(s.acts[a]) {
      HolderConstants(s, a);
    } else if Scheduling(s.acts[a]) {
      ScheduleConstants(s, a, inline);
    } else {
      DrainConstants(s, a);
    }
  }

  lemma HolderConstants(s: State, a: nat)
    requires a < |s.acts|
    ensures HolderStep(s, a).defaultExecutor == s.defaultExecutor && HolderStep(s, a).capacity == s.capacity
  {
  }

  lemma ScheduleConstants(s: State, a: nat, inline: bool)
    requires a < |s.acts|
    ensures ScheduleStep(s, a, inline).defaultExecutor == s.defaultExecutor && ScheduleStep(s, a, inline).capacity == s.capacity
  {
  }

  lemma DrainConstants(s: State, a: nat)
    requires a < |s.acts|
    ensures DrainStep(s, a).defaultExecutor == s.defaultExecutor && DrainStep(s, a).capacity == s.capacity
  {
  }

  lemma NewKind(s: State, op: Op)
    requires Commitments(s) && NobodyInvalidates(s) && !op.InvalidateAll?
    ensures Commitments(Step(s, Begin(op))) && NobodyInvalidates(Step(s, Begin(op)))
  {
    var s' := Step(s, Begin(op));
    forall b | 0 <= b < |s'.acts| && Committed(s', b) ensures Processing(s'.status) {
      assert Committed(s, b);
    }
  }

  lemma AttendedAction(s: State, x: Action)
    requires Calm(s) && Attended(s) && !Invalidates(x)
    ensures Attended(Step(s, x))
  {
    hide Inv, GoStep, Commitments, NobodyInvalidates, Attends;
    match x
    case Begin(op) =>
      if s.status.Required? {
        var b :| 0 <= b < |s.acts| && Attends(s.acts[b]);
        assert Attends(Step(s, x).acts[b]);
      }
    case Go(a, inline) => if a < |s.acts| { AttendedStep(s, a, inline); }
  }

  lemma {:induction false} AttendedRun(s: State, actions: seq<Action>)
    requires Calm(s) && Attended(s) && forall i :: 0 <= i < |actions| ==> !Invalidates(actions[i])
    ensures Calm(Run(s, actions)) && Attended(Run(s, actions))
    decreases |actions|
  {
    hide Calm, Attended, Step;
    if actions != [] {
      CalmStep(s, actions[0]);
      AttendedAction(s, actions[0]);
      AttendedRun(Step(s, actions[0]), actions[1..]);
    }
  }

  lemma FirstWaits(buffer: seq<nat>)
    ensures buffer == [] || exists x :: x in buffer
  {
    assert buffer == [] || buffer[0] in buffer;
  }

  lemma Over(s: State)
    requires Calm(s) && Attended(s) && AllDone(s)
    ensures s.status.Idle? && s.buffer == [] && !s.locked
  {
    hide Tokens, Commitments;
    FirstWaits(s.buffer);
  }

  /**
    Nothing is left waiting: with the default executor, over every run without InvalidateAll, once all activities
    are done, handed drains included, every task has been taken out of the buffer and the status is idle.
  */
  lemma NothingLeft(capacity: nat, actions: seq<Action>)
    requires (forall i :: 0 <= i < |actions| ==> !Invalidates(actions[i])) && AllDone(Run(New(capacity, true), actions))
    ensures var s := Run(New(capacity, true), actions); s.status.Idle? && s.buffer == [] && !s.locked
  {
    hide Calm, Attended, AllDone, Run, New;
    NewIsCalm(capacity);
    AttendedRun(New(capacity, true), actions);
    Over(Run(New(capacity, true), actions));
  }

  lemma NewIsCalm(capacity: nat)
    ensures Calm(New(capacity, true)) && Attended(New(capacity, true))
  {
  }

  /**
    What an InvalidateAll may have left behind, the next operation of any other kind takes care of, whatever runs
    beside it: afterwards nothing waits.
  */
  lemma NextCleansUp(capacity: nat, before: seq<Action>, op: Op, after: seq<Action>)
    requires AllDone(Run(New(capacity, true), before)) && !op.InvalidateAll?
    requires forall i :: 0 <= i < |after| ==> !Invalidates(after[i])
    requires AllDone(Run(Run(New(capacity, true), before), [Begin(op)] + after))
    ensures var s := Run(Run(New(capacity, true), before), [Begin(op)] + after); s.status.Idle? && s.buffer == [] && !s.locked
  {
    var s := Run(New(capacity, true), before);
    Reachable(capacity, true, before);
    RunExecutor(New(capacity, true), before);
    DoneIsCalm(s);
    var s1 := Step(s, Begin(op));
    assert ([Begin(op)] + after)[1..] == after;
    CalmStep(s, Begin(op));
    assert Attends(s1.acts[|s.acts|]);
    AttendedRun(s1, after);
    Over(Run(s1, after));
  }

  lemma DoneIsCalm(s: State)
    requires Inv(s) && AllDone(s) && s.defaultExecutor
    ensures Calm(s)
  {
    hide Inv;
  }

  lemma {:induction false} RunExecutor(s: State, actions: seq<Action>)
    ensures Run(s, actions).defaultExecutor == s.defaultExecutor && Run(s, actions).capacity == s.capacity
    decreases |actions|
  {
    hide GoStep;
    if actions != [] {
      match actions[0] {
        case Begin(op) =>
        case Go(a, inline) => if a < |s.acts| { SameExecutor(s, a, inline); }
      }
      RunExecutor(Step(s, actions[0]), actions[1..]);
    }
  }

  // ---------- Each task once ----------

  /** The writer's task has been pushed, or the writer keeps or kept it to itself. */
  predicate Placed(h: History, x: nat) {
    x in h.log || x in h.own || x in h.helped
  }

  /** A writer that is about to do the maintenance for its own task. */
  predicate Helping(pc: Pc) {
    pc.Lock? || pc.MStart? || pc.MPop? || pc.MBody?
  }

  ghost predicate Distinct(l: seq<nat>) {
    forall i, j :: 0 <= i < j < |l| ==> l[i] != l[j]
  }

  /** Tasks are run in the order in which they were pushed, and no task is in two places or in one twice. */
  ghost predicate Tasks(s: State) {
    var h := s.history;
    && h.ran + s.buffer == h.log && Distinct(h.log)
    && (forall x :: x in h.own ==> x < |s.acts| && Helping(s.acts[x]) && x !in h.log && x !in h.helped)
    && (forall x :: x in h.helped ==> x !in h.log)
    && (forall x: nat :: Placed(h, x) ==> x < |s.acts| && !BeforePush(s.acts[x]))
  }

  /** A step that leaves tasks and buffer alone. */
  lemma TasksKept(s: State, s': State, a: nat)
    requires Tasks(s) && Moves(s, s', a) && s'.history == s.history && s'.buffer == s.buffer
    requires BeforePush(s'.acts[a]) ==> BeforePush(s.acts[a])
    requires a in s.history.own ==> Helping(s'.acts[a])
    ensures Tasks(s')
  {
  }

  lemma PushTasks(s: State, a: nat)
    requires Tasks(s) && a < |s.acts| && s.acts[a].Push?
    ensures Tasks(WriterStep(s, a))
  {
    var s' := WriterStep(s, a);
    if s.acts[a].left > 0 && |s.buffer| < s.capacity {
      PlacedInBuffer(s, s', a);
    } else if s.acts[a].left == 0 {
      KeptBack(s, s', a);
    } else {
      TasksKept(s, s', a);
    }
  }

  lemma PlacedInBuffer(s: State, s': State, a: nat)
    requires Tasks(s) && a < |s.acts| && Moves(s, s', a) && BeforePush(s.acts[a]) && !BeforePush(s'.acts[a])
    requires s' == Pushed(s, a).(acts := s'.acts)
    ensures Tasks(s')
  {
    assert !Placed(s.history, a);
    assert s'.history.ran + s'.buffer == s.history.log + [a];
    assert forall x: nat :: Placed(s'.history, x) <==> Placed(s.history, x) || x == a;
  }

  lemma KeptBack(s: State, s': State, a: nat)
    requires Tasks(s) && a < |s.acts| && BeforePush(s.acts[a]) && Moves(s, s', a) && s'.acts[a].Lock?
    requires s'.buffer == s.buffer && s'.history == s.history.(own := s.history.own + {a})
    ensures Tasks(s')
  {
    assert !Placed(s.history, a);
    assert forall x: nat :: Placed(s'.history, x) <==> Placed(s.history, x) || x == a;
  }

  lemma RanTasks(s: State, s': State, a: nat)
    requires Tasks(s) && a < |s.acts| && s.buffer != [] && s' == Ran(s).(acts := s'.acts)
    requires Moves(s, s', a) && (BeforePush(s'.acts[a]) ==> BeforePush(s.acts[a]))
    requires a in s.history.own ==> Helping(s'.acts[a])
    ensures Tasks(s')
  {
    assert forall x: nat :: Placed(s'.history, x) <==> Placed(s.history, x);
    assert s.buffer == [s.buffer[0]] + s.buffer[1..];
    assert s'.history.ran + s'.buffer == s.history.ran + ([s.buffer[0]] + s.buffer[1..]);
  }

  lemma HelpTasks(s: State, a: nat)
    requires Tasks(s) && a < |s.acts| && s.acts[a].MBody?
    ensures Tasks(DrainStep(s, a))
  {
    assert forall x: nat :: Placed(DrainStep(s, a).history, x) <==> Placed(s.history, x);
  }

  lemma TasksStep(s: State, a: nat, inline: bool)
    requires Tasks(s) && a < |s.acts|
    ensures Tasks(GoStep(s, a, inline))
  {
    hide Tasks, WriterStep, HolderStep, ScheduleStep, DrainStep, Moves;
    OthersGo(s, a, inline);
    var pc := s.acts[a];
    if pc.Push? {
      PushTasks(s, a);
    } else if pc.MBody? {
      HelpTasks(s, a);
    } else if ((pc.MPop? && pc.i <= s.capacity) || pc.InvPop?) && s.buffer != [] {
      TakenStep(s, a);
      RanTasks(s, GoStep(s, a, inline), a);
    } else {
      OwnHelps(s, a);
      QuietStep(s, a, inline);
      TasksKept(s, GoStep(s, a, inline), a);
    }
  }

  lemma OwnHelps(s: State, a: nat)
    requires Tasks(s)
    ensures a in s.history.own ==> a < |s.acts| && Helping(s.acts[a])
  {
  }

  lemma TakenStep(s: State, a: nat)
    requires Tasks(s) && a < |s.acts| && s.buffer != [] && ((s.acts[a].MPop? && s.acts[a].i <= s.capacity) || s.acts[a].InvPop?)
    ensures var s' := GoStep(s, a, false);
      && (forall inline :: GoStep(s, a, inline) == s') && s' == Ran(s).(acts := s'.acts) && a < |s'.acts| && !BeforePush(s'.acts[a])
      && (a in s.history.own ==> Helping(s'.acts[a]))
  {
  }

  /** The other steps leave buffer and tasks alone; nobody becomes a writer again. */
  lemma QuietStep(s: State, a: nat, inline: bool)
    requires a < |s.acts| && !s.acts[a].Push? && !s.acts[a].MBody?
    requires ((s.acts[a].MPop? && s.acts[a].i <= s.capacity) || s.acts[a].InvPop?) ==> s.buffer == []
    ensures Calmly(s, GoStep(s, a, inline), a)
  {
    hide WriterStep, HolderStep, ScheduleStep, DrainStep, Calmly;
    if Writing(s.acts[a]) {
      WriterCalmly(s, a);
    } else if Holding(s.acts[a]) {
      HolderCalmly(s, a);
    } else if Scheduling(s.acts[a]) {
      ScheduleCalmly(s, a, inline);
    } else {
      DrainCalmly(s, a);
    }
  }

  ghost predicate Calmly(s: State, s': State, a: nat) {
    && a < |s.acts| <= |s'.acts| && s'.history == s.history && s'.buffer == s.buffer
    && (BeforePush(s'.acts[a]) ==> BeforePush(s.acts[a]))
    && (Helping(s.acts[a]) ==> Helping(s'.acts[a]))
  }

  lemma WriterCalmly(s: State, a: nat)
    requires a < |s.acts| && Writing(s.acts[a]) && !s.acts[a].Push?
    ensures Calmly(s, WriterStep(s, a), a)
  {
  }

  lemma HolderCalmly(s: State, a: nat)
    requires a < |s.acts| && Holding(s.acts[a]) && (s.acts[a].InvPop? ==> s.buffer == [])
    ensures Calmly(s, HolderStep(s, a), a)
  {
  }

  lemma ScheduleCalmly(s: State, a: nat, inline: bool)
    requires a < |s.acts| && Scheduling(s.acts[a])
    ensures Calmly(s, ScheduleStep(s, a, inline), a)
  {
  }

  lemma DrainCalmly(s: State, a: nat)
    requires a < |s.acts| && !Writing(s.acts[a]) && !Holding(s.acts[a]) && !Scheduling(s.acts[a]) && !s.acts[a].MBody?
    requires s.acts[a].MPop? && s.acts[a].i <= s.capacity ==> s.buffer == []
    ensures Calmly(s, DrainStep(s, a), a)
  {
    hide DrainStep, Calmly;
    var pc := s.acts[a];
    if pc.JobTryLock? || pc.JobToken? || pc.Lock? {
      EnterCalmly(s, a);
    } else if pc.MStart? || pc.MPop? {
      PopCalmly(s, a);
    } else {
      LeaveCalmly(s, a);
    }
  }

  lemma EnterCalmly(s: State, a: nat)
    requires a < |s.acts| && (s.acts[a].JobTryLock? || s.acts[a].JobToken? || s.acts[a].Lock?)
    ensures Calmly(s, DrainStep(s, a), a)
  {
  }

  lemma PopCalmly(s: State, a: nat)
    requires a < |s.acts| && (s.acts[a].MStart? || (s.acts[a].MPop? && (s.acts[a].i <= s.capacity ==> s.buffer == [])))
    ensures Calmly(s, DrainStep(s, a), a)
  {
  }

  lemma LeaveCalmly(s: State, a: nat)
    requires a < |s.acts|
    requires var pc := s.acts[a]; pc.MLoad? || pc.MCas? || pc.MStore? || pc.MUnlock? || pc.Reschedule? || pc.Done?
    ensures Calmly(s, DrainStep(s, a), a)
  {
  }

  /** Activity a is a writer's: either it is still trying to push its task, or the task is placed. */
  predicate Writer(s: State, a: nat) {
    a < |s.acts| && (BeforePush(s.acts[a]) || Placed(s.history, a))
  }

  lemma WriterStays(s: State, x: Action, a: nat)
    requires Tasks(s) && Writer(s, a)
    ensures Writer(Step(s, x), a)
  {
    hide GoStep, Tasks;
    match x
    case Begin(op) =>
    case Go(b, inline) =>
      if b < |s.acts| {
        OthersGo(s, b, inline);
        PlacedStays(s, b, inline, a);
        if b == a && BeforePush(s.acts[a]) {
          TryStep(s, a, inline);
        }
      }
  }

  lemma PlacedStays(s: State, b: nat, inline: bool, a: nat)
    requires Tasks(s) && b < |s.acts|
    ensures Placed(s.history, a) ==> Placed(GoStep(s, b, inline).history, a)
  {
    hide Tasks, WriterStep, HolderStep, ScheduleStep, DrainStep;
    var pc := s.acts[b];
    if pc.Push? {
      PushPlaces(s, b);
    } else if pc.MBody? {
      HelpPlaces(s, b);
    } else if ((pc.MPop? && pc.i <= s.capacity) || pc.InvPop?) && s.buffer != [] {
      TakenStep(s, b);
    } else {
      QuietStep(s, b, inline);
    }
  }

  lemma PushPlaces(s: State, b: nat)
    requires b < |s.acts| && s.acts[b].Push?
    ensures forall a :: Placed(s.history, a) ==> Placed(WriterStep(s, b).history, a)
  {
  }

  lemma HelpPlaces(s: State, b: nat)
    requires b < |s.acts| && s.acts[b].MBody?
    ensures forall a :: Placed(s.history, a) ==> Placed(DrainStep(s, b).history, a)
  {
  }

  /** A writer that has not pushed goes on trying, or its task is placed. */
  lemma TryStep(s: State, a: nat, inline: bool)
    requires Tasks(s) && a < |s.acts| && BeforePush(s.acts[a])
    ensures Writer(GoStep(s, a, inline), a)
  {
    hide Tasks, WriterStep, ScheduleStep;
    if s.acts[a].Push? {
      WriterTries(s, a);
    } else {
      ScheduleTries(s, a, inline);
    }
  }

  lemma WriterTries(s: State, a: nat)
    requires a < |s.acts| && s.acts[a].Push?
    ensures Writer(WriterStep(s, a), a)
  {
  }

  lemma ScheduleTries(s: State, a: nat, inline: bool)
    requires a < |s.acts| && Scheduling(s.acts[a]) && s.acts[a].k.Retry?
    ensures var s' := ScheduleStep(s, a, inline); a < |s'.acts| && BeforePush(s'.acts[a])
  {
  }

  lemma TasksAction(s: State, x: Action)
    requires Tasks(s)
    ensures Tasks(Step(s, x))
  {
    hide GoStep;
    match x
    case Begin(op) =>
    case Go(a, inline) => if a < |s.acts| { TasksStep(s, a, inline); }
  }

  lemma {:induction false} TasksRun(s: State, actions: seq<Action>)
    requires Tasks(s)
    ensures Tasks(Run(s, actions))
    ensures forall a :: Writer(s, a) ==> Writer(Run(s, actions), a)
    decreases |actions|
  {
    hide Tasks, Step, Writer;
    if actions != [] {
      TasksAction(s, actions[0]);
      forall a | Writer(s, a) ensures Writer(Step(s, actions[0]), a) {
        WriterStays(s, actions[0], a);
      }
      TasksRun(Step(s, actions[0]), actions[1..]);
    }
  }

  lemma {:induction false} RunSplit(s: State, a: seq<Action>, b: seq<Action>)
    ensures Run(s, a + b) == Run(Run(s, a), b)
    decreases |a|
  {
    hide Step;
    if a == [] {
      assert a + b == b;
    } else {
      assert (a + b)[1..] == a[1..] + b;
      RunSplit(Step(s, a[0]), a[1..], b);
    }
  }

  /**
    Over every run the tasks of the buffer are run in the order in which they were pushed, each once. The task of
    every write is pushed once, or run once by the writer itself, before the write is done, and not both.
  */
  lemma EachTaskOnce(capacity: nat, defaultExecutor: bool, before: seq<Action>, after: seq<Action>)
    ensures var s := Run(New(capacity, defaultExecutor), before + [Begin(Write)] + after);
      && s.history.ran + s.buffer == s.history.log && Distinct(s.history.log)
    ensures var s := Run(New(capacity, defaultExecutor), before + [Begin(Write)] + after);
      var a := |Run(New(capacity, defaultExecutor), before).acts|;
      && a < |s.acts|
      && (BeforePush(s.acts[a]) ==> a !in s.history.log && a !in s.history.helped)
      && (s.acts[a].Done? ==> (a in s.history.log <==> a !in s.history.helped))
  {
    hide Tasks, Step;
    var q := New(capacity, defaultExecutor);
    var s0 := Run(q, before);
    var a := |s0.acts|;
    var s1 := Step(s0, Begin(Write));
    assert before + [Begin(Write)] + after == before + ([Begin(Write)] + after);
    RunSplit(q, before, [Begin(Write)] + after);
    assert ([Begin(Write)] + after)[1..] == after;
    NoTasks(capacity, defaultExecutor);
    TasksRun(q, before);
    TasksAction(s0, Begin(Write));
    NewWriter(s0);
    TasksRun(s1, after);
    TasksSay(Run(s1, after), a);
  }

  lemma NoTasks(capacity: nat, defaultExecutor: bool)
    ensures Tasks(New(capacity, defaultExecutor))
  {
  }

  lemma NewWriter(s: State)
    ensures Writer(Step(s, Begin(Write)), |s.acts|)
  {
  }

  lemma TasksSay(s: State, a: nat)
    requires Tasks(s) && Writer(s, a)
    ensures s.history.ran + s.buffer == s.history.log && Distinct(s.history.log)
    ensures BeforePush(s.acts[a]) ==> a !in s.history.log && a !in s.history.helped
    ensures s.acts[a].Done? ==> (a in s.history.log <==> a !in s.history.helped)
  {
    assert BeforePush(s.acts[a]) ==> !Placed(s.history, a);
  }

  // ---------- A write sees to it ----------

  /** The state before action i. */
  function Moment(q: State, actions: seq<Action>, i: nat): State
    requires i <= |actions|
  {
    Run(q, actions[..i])
  }

  lemma Next(q: State, actions: seq<Action>, i: nat)
    requires i < |actions|
    ensures Moment(q, actions, i + 1) == Step(Moment(q, actions, i), actions[i])
  {
    hide Step;
    var s := Moment(q, actions, i);
    assert actions[..i + 1] == actions[..i] + [actions[i]];
    RunSplit(q, actions[..i], [actions[i]]);
    assert Run(s, [actions[i]]) == Step(s, actions[i]);
  }

  /** Not yet decided whether somebody drains: before its push, or on the way from the push to the mutex. */
  predicate OnTheWay(pc: Pc) {
    BeforePush(pc) || Writing(pc) || (pc.SdbLoad? && pc.k.Finish?) || (pc.SdbTryLock? && pc.k.Finish?) || (pc.Lock? && !pc.handed)
  }

  /** After its push the writer sees that somebody is draining, or tries the mutex; or it waits for the mutex to drain itself. */
  predicate SeesToIt(s: State, a: nat) {
    a < |s.acts| &&
    var pc := s.acts[a];
    || (Processing(s.status) && (pc.SawLoad? || pc.SawCasProcessing? || (pc.SdbLoad? && pc.k.Finish?)))
    || (pc.SdbTryLock? && pc.k.Finish?)
    || (pc.Lock? && !pc.handed && !s.locked)
  }

  ghost predicate SawToIt(q: State, actions: seq<Action>, a: nat, i: nat) {
    i < |actions| && actions[i].Go? && actions[i].a == a && SeesToIt(Moment(q, actions, i), a)
  }

  /** Whoever leaves the way does so by seeing to it. */
  lemma WayStep(s: State, x: Action, a: nat)
    requires a < |s.acts| && OnTheWay(s.acts[a])
    ensures var s' := Step(s, x); a < |s'.acts| && (OnTheWay(s'.acts[a]) || (x.Go? && x.a == a && SeesToIt(s, a)))
  {
    hide GoStep;
    match x
    case Begin(op) =>
    case Go(b, inline) =>
      if b < |s.acts| {
        OthersGo(s, b, inline);
        if b == a {
          WayOwn(s, a, inline);
        }
      }
  }

  lemma WayOwn(s: State, a: nat, inline: bool)
    requires a < |s.acts| && OnTheWay(s.acts[a])
    ensures var s' := GoStep(s, a, inline); a < |s'.acts| && (OnTheWay(s'.acts[a]) || SeesToIt(s, a))
  {
    hide WriterStep, ScheduleStep, DrainStep;
    var pc := s.acts[a];
    if Writing(pc) {
      WayWriter(s, a);
    } else if Scheduling(pc) {
      WaySchedule(s, a, inline);
    } else {
      WayLock(s, a);
    }
  }

  lemma WayWriter(s: State, a: nat)
    requires a < |s.acts| && Writing(s.acts[a])
    ensures var s' := WriterStep(s, a); a < |s'.acts| && (OnTheWay(s'.acts[a]) || SeesToIt(s, a))
  {
  }

  lemma WaySchedule(s: State, a: nat, inline: bool)
    requires a < |s.acts| && Scheduling(s.acts[a]) && OnTheWay(s.acts[a])
    ensures var s' := ScheduleStep(s, a, inline); a < |s'.acts| && (OnTheWay(s'.acts[a]) || SeesToIt(s, a))
  {
  }

  lemma WayLock(s: State, a: nat)
    requires a < |s.acts| && s.acts[a] == Lock(false)
    ensures var s' := DrainStep(s, a); a < |s'.acts| && (OnTheWay(s'.acts[a]) || SeesToIt(s, a))
  {
  }

  lemma ActsGrow(s: State, x: Action)
    ensures |s.acts| <= |Step(s, x).acts|
  {
    hide GoStep;
    match x
    case Begin(op) =>
    case Go(b, inline) => if b < |s.acts| { OthersGo(s, b, inline); }
  }

  lemma {:induction false} WayRun(q: State, actions: seq<Action>, a: nat)
    requires a < |q.acts| && OnTheWay(q.acts[a])
    ensures var s := Moment(q, actions, |actions|);
      a < |s.acts| && (OnTheWay(s.acts[a]) || exists i :: SawToIt(q, actions, a, i))
    decreases |actions|
  {
    hide Step;
    if actions != [] {
      var n := |actions| - 1;
      var front := actions[..n];
      WayRun(q, front, a);
      forall i | 0 <= i <= n ensures Moment(q, front, i) == Moment(q, actions, i) {
        assert front[..i] == actions[..i];
      }
      Next(q, actions, n);
      if OnTheWay(Moment(q, actions, n).acts[a]) {
        WayStep(Moment(q, actions, n), actions[n], a);
        assert SawToIt(q, actions, a, n) || OnTheWay(Moment(q, actions, n + 1).acts[a]);
      } else {
        ActsGrow(Moment(q, actions, n), actions[n]);
        var i :| SawToIt(q, front, a, i);
        assert SawToIt(q, actions, a, i);
      }
    }
  }

  /**
    For every executor and over every run: a write is done only after it has seen, once its task was pushed, that a
    drain is under way, or has tried the mutex, or has taken it to drain itself.
  */
  lemma WriteSeesToIt(capacity: nat, defaultExecutor: bool, before: seq<Action>, after: seq<Action>)
    ensures var q := Run(New(capacity, defaultExecutor), before); var w := Step(q, Begin(Write)); var a := |q.acts|;
      && Run(New(capacity, defaultExecutor), before + [Begin(Write)] + after) == Run(w, after)
      && a < |Run(w, after).acts|
      && (Run(w, after).acts[a].Done? ==> exists i :: SawToIt(w, after, a, i))
  {
    hide Step;
    var q := Run(New(capacity, defaultExecutor), before);
    var w := Step(q, Begin(Write));
    assert before + [Begin(Write)] + after == before + ([Begin(Write)] + after);
    RunSplit(New(capacity, defaultExecutor), before, [Begin(Write)] + after);
    assert ([Begin(Write)] + after)[1..] == after;
    JustBegun(q);
    WayRun(w, after, |q.acts|);
    assert after[..|after|] == after;
  }

  lemma JustBegun(s: State)
    ensures Step(s, Begin(Write)).acts == s.acts + [Push(WRITE_BUFFER_RETRIES)]
  {
  }

  // ---------- InvalidateAll empties the buffer ----------

  /** Before action i the InvalidateAll of activity a, holding the mutex, found the buffer empty. */
  ghost predicate EmptiedAt(q: State, actions: seq<Action>, a: nat, i: nat) {
    && i < |actions| && actions[i].Go? && actions[i].a == a
    && var s := Moment(q, actions, i);
    a < |s.acts| && s.acts[a].InvPop? && s.locked && s.buffer == []
  }

  predicate StillPopping(pc: Pc) {
    pc.InvLock? || pc.InvPop?
  }

  lemma PopsOn(s: State, x: Action, a: nat)
    requires Inv(s) && a < |s.acts| && StillPopping(s.acts[a])
    ensures var s' := Step(s, x);
      && a < |s'.acts|
      && (StillPopping(s'.acts[a]) || (x.Go? && x.a == a && s.acts[a].InvPop? && s.locked && s.buffer == []))
  {
    hide Inv, GoStep;
    match x
    case Begin(op) =>
    case Go(b, inline) =>
      if b < |s.acts| {
        OthersGo(s, b, inline);
        if b == a {
          Parts(s);
          Ownership(s, a);
          PopsOwn(s, a, inline);
        }
      }
  }

  lemma PopsOwn(s: State, a: nat, inline: bool)
    requires a < |s.acts| && StillPopping(s.acts[a]) && (s.acts[a].InvPop? ==> s.locked)
    ensures var s' := GoStep(s, a, inline);
      a < |s'.acts| && (StillPopping(s'.acts[a]) || (s.acts[a].InvPop? && s.locked && s.buffer == []))
  {
  }

  lemma {:induction false} PopsRun(q: State, actions: seq<Action>, a: nat)
    requires Inv(q) && a < |q.acts| && StillPopping(q.acts[a])
    ensures var s := Moment(q, actions, |actions|);
      a < |s.acts| && Inv(s) && (StillPopping(s.acts[a]) || exists i :: EmptiedAt(q, actions, a, i))
    decreases |actions|
  {
    hide Step, Inv;
    if actions != [] {
      var n := |actions| - 1;
      var front := actions[..n];
      PopsRun(q, front, a);
      forall i | 0 <= i <= n ensures Moment(q, front, i) == Moment(q, actions, i) {
        assert front[..i] == actions[..i];
      }
      Next(q, actions, n);
      StepOk(Moment(q, actions, n), actions[n]);
      if StillPopping(Moment(q, actions, n).acts[a]) {
        PopsOn(Moment(q, actions, n), actions[n], a);
        assert EmptiedAt(q, actions, a, n) || StillPopping(Moment(q, actions, n + 1).acts[a]);
      } else {
        ActsGrow(Moment(q, actions, n), actions[n]);
        var i :| EmptiedAt(q, front, a, i);
        assert EmptiedAt(q, actions, a, i);
      }
    }
  }

  /** Over every run: an InvalidateAll is done only after it has found the buffer empty while it held the mutex. */
  lemma InvalidateEmpties(capacity: nat, defaultExecutor: bool, before: seq<Action>, after: seq<Action>)
    ensures var q := Run(New(capacity, defaultExecutor), before); var w := Step(q, Begin(InvalidateAll)); var a := |q.acts|;
      && a < |Run(w, after).acts|
      && (Run(w, after).acts[a].Done? ==> exists i :: EmptiedAt(w, after, a, i))
  {
    hide Step, Inv;
    var q := Run(New(capacity, defaultExecutor), before);
    Reachable(capacity, defaultExecutor, before);
    StepOk(q, Begin(InvalidateAll));
    JustInvalidating(q);
    PopsRun(Step(q, Begin(InvalidateAll)), after, |q.acts|);
    assert after[..|after|] == after;
  }

  lemma JustInvalidating(s: State)
    ensures Step(s, Begin(InvalidateAll)).acts == s.acts + [InvLock]
  {
  }
}
