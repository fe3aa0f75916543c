/** No write is forgotten, and every acquisition of the eviction mutex is released exactly once. */
module MaintenanceSafety {
  import opened Maintenance

  /** The only activities whose counters change are a, and a new one at the end. */
  ghost predicate Moves(s: State, s': State, a: nat) {
    && a < |s.acts| <= |s'.acts| <= |s.acts| + 1
    && (forall b :: 0 <= b < |s.acts| && b != a ==> s'.acts[b] == s.acts[b])
    && (|s'.acts| > |s.acts| ==> s'.acts[|s.acts|].JobTryLock? && s.acts[a].SdbHand?)
  }

  // ---------- The mutex ----------

  /** A step that neither takes nor gives up responsibility for the mutex. */
  lemma LocksKept(s: State, s': State, a: nat)
    requires Locks(s) && Moves(s, s', a)
    requires s'.locked == s.locked && s'.releases == s.releases && s'.fatal == s.fatal
    requires s'.tokens == s.tokens && |s'.acts| == |s.acts|
    requires Owner(s', a) <==> Owner(s, a)
    ensures Locks(s')
  {
    forall b | 0 <= b < |s.acts| ensures Owner(s', b) <==> Owner(s, b) {
      assert b != a ==> s'.acts[b] == s.acts[b];
    }
    if s.locked {
      var o :| 0 <= o < |s.acts| && Owner(s, o);
      assert Owner(s', o);
    }
  }

  lemma TokensKept(s: State, s': State, a: nat)
    requires Tokens(s) && Moves(s, s', a) && |s'.acts| == |s.acts|
    requires s'.tokens == s.tokens && s'.schedulers == s.schedulers
    requires forall i :: 0 <= i < |s.tokens| && !s.tokens[i] && AwaitsToken(s.acts[a], i) ==> AwaitsToken(s'.acts[a], i)
    requires HoldsToken(s', a)
    ensures Tokens(s')
  {
    forall i | 0 <= i < |s'.tokens| && !s'.tokens[i] ensures s'.schedulers[i] < |s'.acts| && AwaitsToken(s'.acts[s'.schedulers[i]], i) {
      assert AwaitsToken(s.acts[s.schedulers[i]], i);
    }
    forall b | 0 <= b < |s'.acts| ensures HoldsToken(s', b) {
      assert HoldsToken(s, b);
    }
  }

  lemma LocksTaken(s: State, s': State, a: nat)
    requires Locks(s) && Moves(s, s', a) && |s'.acts| == |s.acts| && !s.locked
    requires s'.locked && s'.releases == s.releases + [0] && s'.fatal == s.fatal && s'.tokens == s.tokens
    requires Owner(s', a)
    ensures Locks(s')
  {
    forall b | 0 <= b < |s.acts| && Owner(s', b) ensures b == a {
      assert b != a ==> Owner(s, b);
    }
  }

  lemma LocksFreed(s: State, s': State, a: nat)
    requires Locks(s) && Moves(s, s', a) && |s'.acts| == |s.acts| && Owner(s, a) && !Owner(s', a)
    requires s.locked && s'.tokens == s.tokens
    requires s' == Release(s).(acts := s'.acts)
    ensures Locks(s') && s.locked
  {
    forall b | 0 <= b < |s.acts| && Owner(s', b) ensures false {
      assert Owner(s, b);
    }
  }

  /** Responsibility passes from b to a. */
  lemma LocksPassed(s: State, s': State, a: nat, b: nat)
    requires Locks(s) && Moves(s, s', a) && |s'.acts| == |s.acts| && b < |s.acts| && Owner(s, b)
    requires s'.locked == s.locked && s'.releases == s.releases && s'.fatal == s.fatal
    requires Owner(s', a)
    requires forall c :: 0 <= c < |s.acts| && c != a && Owner(s', c) ==> Owner(s, c) && c != b
    ensures Locks(s')
  {
  }

  lemma TokenOwner(s: State, tok: nat)
    requires Locks(s) && Tokens(s) && tok < |s.tokens| && !s.tokens[tok]
    ensures s.schedulers[tok] < |s.acts| && Owner(s, s.schedulers[tok])
  {
  }

  lemma Ownership(s: State, a: nat)
    requires Locks(s) && Tokens(s) && a < |s.acts|
    ensures HoldsToken(s, a) && (Owner(s, a) ==> s.locked)
  {
  }

  lemma WriterLocks(s: State, a: nat)
    requires Locks(s) && Tokens(s) && a < |s.acts|
    requires Writing(s.acts[a])
    ensures Locks(WriterStep(s, a)) && Tokens(WriterStep(s, a))
  {
    hide Locks, Tokens, WriterStep;
    var s' := WriterStep(s, a);
    WriterMoves(s, a);
    LocksKept(s, s', a);
    TokensKept(s, s', a);
  }

  /** A writer's step concerns the status, the buffer and its own counter only. */
  lemma WriterMoves(s: State, a: nat)
    requires a < |s.acts| && Writing(s.acts[a])
    ensures var s' := WriterStep(s, a);
      && |s'.acts| == |s.acts|
      && s' == s.(status := s'.status, buffer := s'.buffer, history := s'.history, acts := s.acts[a := s'.acts[a]])
      && (Writing(s'.acts[a]) || s'.acts[a].Lock? || s'.acts[a].SdbLoad? || s'.acts[a].Done?)
  {
  }

  /** A step of a scheduler that neither stores a status nor hands a drain over. */
  lemma ScheduleMoves(s: State, a: nat, inline: bool)
    requires a < |s.acts| && Scheduling(s.acts[a]) && !s.acts[a].SdbStore? && !s.acts[a].SdbHand?
    ensures var s' := ScheduleStep(s, a, inline);
      && |s'.acts| == |s.acts|
      && s' == s.(locked := s'.locked, releases := s'.releases, fatal := s'.fatal, tokens := s'.tokens, acts := s.acts[a := s'.acts[a]])
      && (if Scheduling(s'.acts[a]) then s'.acts[a].k == s.acts[a].k && !s'.acts[a].SdbHand? else s'.acts[a] == Return(s.acts[a].k))
      && (s'.acts[a].SdbStore? ==> !Processing(s.status))
  {
  }

  /** A step of a drain that concerns neither the status nor the buffer. */
  ghost predicate Still(s: State, s': State, a: nat) {
    && a < |s.acts| == |s'.acts|
    && s' == s.(locked := s'.locked, releases := s'.releases, fatal := s'.fatal, tokens := s'.tokens, history := s'.history, acts := s.acts[a := s'.acts[a]])
    && (Busy(s.acts[a]) ==> Busy(s'.acts[a])) && (InBody(s'.acts[a]) ==> InBody(s.acts[a]))
    && (AfterPops(s'.acts[a]) ==> AfterPops(s.acts[a])) && !BeforePush(s'.acts[a]) && !s'.acts[a].SdbStore?
    && (s'.acts[a].MStore? ==> AfterPops(s.acts[a]) && !s.status.ToIdle?)
    && (Writing(s.acts[a]) <==> Writing(s'.acts[a]))
  }

  lemma DrainMoves(s: State, a: nat)
    requires a < |s.acts| && StillDrain(s.acts[a], s.status)
    ensures Still(s, DrainStep(s, a), a)
  {
    hide DrainStep, Still;
    if s.acts[a].JobTryLock? || s.acts[a].JobToken? || s.acts[a].Lock? {
      JobMoves(s, a);
    } else {
      BodyMoves(s, a);
    }
  }

  lemma JobMoves(s: State, a: nat)
    requires a < |s.acts| && (s.acts[a].JobTryLock? || s.acts[a].JobToken? || s.acts[a].Lock?)
    ensures Still(s, DrainStep(s, a), a)
  {
  }

  lemma BodyMoves(s: State, a: nat)
    requires a < |s.acts|
    requires var pc := s.acts[a]; pc.MBody? || pc.MLoad? || (pc.MCas? && !s.status.ToIdle?) || pc.MUnlock? || pc.Reschedule? || pc.Done?
    ensures Still(s, DrainStep(s, a), a)
  {
    hide Release, Helped;
    HelpedMoves(s, a);
    ReleaseMoves(s);
  }

  lemma HelpedMoves(s: State, a: nat)
    ensures Helped(s, a) == s.(history := Helped(s, a).history)
  {
  }

  lemma ReleaseMoves(s: State)
    ensures Release(s) == s.(locked := Release(s).locked, releases := Release(s).releases, fatal := Release(s).fatal)
  {
  }

  predicate StillDrain(pc: Pc, st: Status) {
    || pc.JobTryLock? || pc.JobToken? || pc.Lock? || pc.MBody? || pc.MLoad? || (pc.MCas? && !st.ToIdle?)
    || pc.MUnlock? || pc.Reschedule? || pc.Done?
  }

  lemma HolderLocks(s: State, a: nat)
    requires Locks(s) && Tokens(s) && a < |s.acts|
    requires Holding(s.acts[a])
    ensures Locks(HolderStep(s, a)) && Tokens(HolderStep(s, a))
  {
    hide Locks, Tokens;
    Ownership(s, a);
    var s' := HolderStep(s, a);
    var pc := s.acts[a];
    if pc.InvUnlock? {
      HasReleases(s);
      LocksFreed(s, s', a);
    } else if (pc.InvLock? || pc.PeekLock?) && !s.locked {
      LocksTaken(s, s', a);
    } else {
      LocksKept(s, s', a);
    }
    TokensKept(s, s', a);
  }

  lemma HasReleases(s: State)
    requires Locks(s) && s.locked
    ensures s.releases != []
  {
  }

  lemma DrainLocks(s: State, a: nat)
    requires Locks(s) && Tokens(s) && a < |s.acts|
    requires var pc := s.acts[a]; pc.Lock? || pc.MStart? || pc.MPop? || pc.MBody? || pc.MLoad? || pc.MCas? || pc.MStore? || pc.MUnlock? || pc.Reschedule? || pc.Done?
    ensures Locks(DrainStep(s, a)) && Tokens(DrainStep(s, a))
  {
    hide Locks, Tokens, DrainStep;
    if s.acts[a].MUnlock? || s.acts[a].Lock? {
      LockLocks(s, a);
    } else {
      DrainKeeps(s, a);
      LocksKept(s, DrainStep(s, a), a);
      TokensKept(s, DrainStep(s, a), a);
    }
  }

  lemma LockLocks(s: State, a: nat)
    requires Locks(s) && Tokens(s) && a < |s.acts| && (s.acts[a].MUnlock? || s.acts[a].Lock?)
    ensures Locks(DrainStep(s, a)) && Tokens(DrainStep(s, a))
  {
    hide Locks, Tokens;
    Ownership(s, a);
    var s' := DrainStep(s, a);
    if s.acts[a].MUnlock? {
      HasReleases(s);
      LocksFreed(s, s', a);
    } else if !s.locked {
      LocksTaken(s, s', a);
    } else {
      LocksKept(s, s', a);
    }
    TokensKept(s, s', a);
  }

  /** A drain between taking and releasing the mutex leaves mutex and tokens alone. */
  lemma DrainKeeps(s: State, a: nat)
    requires a < |s.acts|
    requires var pc := s.acts[a]; pc.MStart? || pc.MPop? || pc.MBody? || pc.MLoad? || pc.MCas? || pc.MStore? || pc.Reschedule? || pc.Done?
    ensures var s' := DrainStep(s, a);
      && |s'.acts| == |s.acts|
      && s' == s.(status := s'.status, buffer := s'.buffer, history := s'.history, acts := s.acts[a := s'.acts[a]])
      && (Owner(s', a) <==> Owner(s, a))
      && !s'.acts[a].SdbWait? && !s'.acts[a].SdbToken? && !s'.acts[a].JobTryLock? && !s'.acts[a].JobToken?
  {
  }

  lemma JobLocks(s: State, a: nat)
    requires Locks(s) && Tokens(s) && a < |s.acts| && (s.acts[a].JobTryLock? || s.acts[a].JobToken?)
    ensures Locks(DrainStep(s, a)) && Tokens(DrainStep(s, a))
  {
    Ownership(s, a);
    var s' := DrainStep(s, a);
    var pc := s.acts[a];
    if pc.JobTryLock? && !s.locked {
      hide Locks, Tokens;
      LocksTaken(s, s', a);
      TokensKept(s, s', a);
    } else if pc.JobToken? && !s.tokens[pc.tok] {
      TokenPassed(s, s', a, pc.tok);
    } else {
      hide Locks, Tokens;
      LocksKept(s, s', a);
      TokensKept(s, s', a);
    }
  }

  /** The drain wins the token: its scheduler is no longer responsible for the mutex. */
  lemma TokenPassed(s: State, s': State, a: nat, tok: nat)
    requires Locks(s) && Tokens(s) && a < |s.acts| && s.acts[a] == JobToken(tok) && tok < |s.tokens| && !s.tokens[tok]
    requires s' == Goto(s.(tokens := s.tokens[tok := true]), a, MStart)
    ensures Locks(s') && Tokens(s')
  {
    var b := s.schedulers[tok];
    TokenOwner(s, tok);
    forall c | 0 <= c < |s.acts| && c != a && Owner(s', c) ensures Owner(s, c) && c != b {
      assert s'.acts[c] == s.acts[c];
    }
    LocksPassed(s, s', a, b);
    forall i | 0 <= i < |s'.tokens| && !s'.tokens[i] ensures s'.schedulers[i] < |s'.acts| && AwaitsToken(s'.acts[s'.schedulers[i]], i) {
      assert AwaitsToken(s.acts[s.schedulers[i]], i);
    }
    forall c | 0 <= c < |s'.acts| ensures HoldsToken(s', c) {
      assert HoldsToken(s, c);
    }
  }

  lemma ScheduleLocks(s: State, a: nat, inline: bool)
    requires Locks(s) && Tokens(s) && a < |s.acts|
    requires var pc := s.acts[a]; pc.SdbLoad? || pc.SdbTryLock? || pc.SdbRecheck? || pc.SdbGiveUp? || pc.SdbStore? || pc.SdbUnlock?
    ensures Locks(ScheduleStep(s, a, inline)) && Tokens(ScheduleStep(s, a, inline))
  {
    hide Locks, Tokens;
    Ownership(s, a);
    var s' := ScheduleStep(s, a, inline);
    var pc := s.acts[a];
    if pc.SdbGiveUp? || pc.SdbUnlock? {
      HasReleases(s);
      LocksFreed(s, s', a);
    } else if pc.SdbTryLock? && !s.locked {
      LocksTaken(s, s', a);
    } else {
      LocksKept(s, s', a);
    }
    TokensKept(s, s', a);
  }

  /** Handing the drain over: the scheduler stays responsible as long as the new token is free. */
  lemma HandLocks(s: State, a: nat, inline: bool)
    requires Locks(s) && Tokens(s) && a < |s.acts| && s.acts[a].SdbHand?
    ensures Locks(ScheduleStep(s, a, inline)) && Tokens(ScheduleStep(s, a, inline))
  {
    var s' := ScheduleStep(s, a, inline);
    Ownership(s, a);
    assert Owner(s', a) && !Owner(s', |s.acts|);
    forall b | 0 <= b < |s.acts| ensures Owner(s', b) <==> Owner(s, b) {
      assert HoldsToken(s, b);
    }
    forall i | 0 <= i < |s'.tokens| && !s'.tokens[i] ensures s'.schedulers[i] < |s'.acts| && AwaitsToken(s'.acts[s'.schedulers[i]], i) {
      if i < |s.tokens| {
        assert AwaitsToken(s.acts[s.schedulers[i]], i);
      }
    }
    forall c | 0 <= c < |s'.acts| ensures HoldsToken(s', c) {
      if c < |s.acts| {
        assert HoldsToken(s, c);
      }
    }
  }

  /** The scheduler wins the token and stays responsible. */
  lemma TokenKeptBack(s: State, s': State, a: nat, tok: nat)
    requires Locks(s) && Tokens(s) && a < |s.acts| && tok < |s.tokens| && !s.tokens[tok]
    requires s.acts[a].SdbToken? && s.acts[a].tok == tok
    requires s' == Goto(s.(tokens := s.tokens[tok := true]), a, SdbUnlock(s.acts[a].k))
    ensures Locks(s') && Tokens(s')
  {
    TokenOwner(s, tok);
    forall c | 0 <= c < |s.acts| && c != a && Owner(s', c) ensures Owner(s, c) {
      assert s'.acts[c] == s.acts[c];
    }
    LocksPassed(s, s', a, a);
    forall i | 0 <= i < |s'.tokens| && !s'.tokens[i] ensures s'.schedulers[i] < |s'.acts| && AwaitsToken(s'.acts[s'.schedulers[i]], i) {
      assert AwaitsToken(s.acts[s.schedulers[i]], i);
    }
    forall c | 0 <= c < |s'.acts| ensures HoldsToken(s', c) {
      assert HoldsToken(s, c);
    }
  }

  /** The scheduler wins the token, or learns that the drain has. */
  lemma TokenLocks(s: State, a: nat, inline: bool)
    requires Locks(s) && Tokens(s) && a < |s.acts| && (s.acts[a].SdbWait? || s.acts[a].SdbToken?)
    ensures Locks(ScheduleStep(s, a, inline)) && Tokens(ScheduleStep(s, a, inline))
  {
    hide Locks, Tokens;
    Ownership(s, a);
    var s' := ScheduleStep(s, a, inline);
    var pc := s.acts[a];
    if pc.SdbToken? && !s.tokens[pc.tok] {
      TokenKeptBack(s, s', a, pc.tok);
    } else {
      LocksKept(s, s', a);
      TokensKept(s, s', a);
    }
  }

  // ---------- Status and phases ----------

  /** While a owns the mutex nobody else is in maintenance or about to store a status. */
  lemma Alone(s: State, a: nat, b: nat)
    requires Locks(s) && a < |s.acts| && b < |s.acts| && a != b && Owner(s, a)
    ensures !InBody(s.acts[b]) && !s.acts[b].MStore? && !s.acts[b].SdbStore? && !s.acts[b].MStart? && !Owner(s, b)
  {
    assert Owner(s, b) ==> a == b;
  }

  ghost predicate Busy(pc: Pc) {
    Draining(pc) || AfterPops(pc) || pc.MStore?
  }

  ghost predicate SomeBusy(acts: seq<Pc>) {
    exists a :: 0 <= a < |acts| && Busy(acts[a])
  }

  lemma SomeBusyKept(s: State, s': State, a: nat)
    requires Moves(s, s', a) && SomeBusy(s.acts)
    requires Busy(s.acts[a]) ==> Busy(s'.acts[a]) || |s'.acts| > |s.acts|
    ensures SomeBusy(s'.acts)
  {
    var b :| 0 <= b < |s.acts| && Busy(s.acts[b]);
    if b != a {
      assert Busy(s'.acts[b]);
    } else if |s'.acts| > |s.acts| {
      assert Busy(s'.acts[|s.acts|]);
    } else {
      assert Busy(s'.acts[a]);
    }
  }

  /** A step that leaves the status alone, or raises it from ToIdle to ToRequired. */
  lemma PhasesKept(s: State, s': State, a: nat)
    requires Phases(s) && Moves(s, s', a)
    requires s'.status == s.status || (s.status.ToIdle? && s'.status.ToRequired?)
    requires Busy(s.acts[a]) ==> Busy(s'.acts[a]) || |s'.acts| > |s.acts|
    requires InBody(s'.acts[a]) ==> InBody(s.acts[a])
    requires s'.acts[a].SdbStore? ==> !Processing(s'.status)
    requires s'.acts[a].MStore? ==> s'.status.ToRequired?
    requires forall b :: 0 <= b < |s.acts| && s.acts[b].SdbStore? && b != a ==> !Processing(s'.status)
    ensures Phases(s')
  {
    forall b | 0 <= b < |s'.acts| ensures (InBody(s'.acts[b]) ==> Processing(s'.status)) && (s'.acts[b].MStore? ==> s'.status.ToRequired?) && (s'.acts[b].SdbStore? ==> !Processing(s'.status)) {
      if b < |s.acts| && b != a {
        assert s'.acts[b] == s.acts[b];
      }
    }
    if Processing(s'.status) {
      assert SomeBusy(s.acts) by {
        var o :| 0 <= o < |s.acts| && (Draining(s.acts[o]) || AfterPops(s.acts[o]) || s.acts[o].MStore?);
        assert Busy(s.acts[o]);
      }
      SomeBusyKept(s, s', a);
      var o :| 0 <= o < |s'.acts| && Busy(s'.acts[o]);
      assert Draining(s'.acts[o]) || AfterPops(s'.acts[o]) || s'.acts[o].MStore?;
    }
  }

  /** A step by which the owner of the mutex sets the status. */
  lemma PhasesOwner(s: State, s': State, a: nat)
    requires Phases(s) && Locks(s) && Moves(s, s', a) && |s'.acts| == |s.acts| && Owner(s, a)
    requires InBody(s'.acts[a]) ==> Processing(s'.status)
    requires !s'.acts[a].SdbStore? && !s'.acts[a].MStore?
    requires Processing(s'.status) ==> Busy(s'.acts[a])
    ensures Phases(s')
  {
    forall b | 0 <= b < |s.acts| && b != a ensures !InBody(s'.acts[b]) && !s'.acts[b].MStore? && !s'.acts[b].SdbStore? {
      Alone(s, a, b);
      assert s'.acts[b] == s.acts[b];
    }
    if Processing(s'.status) {
      assert Draining(s'.acts[a]) || AfterPops(s'.acts[a]);
    }
  }

  lemma WriterPhases(s: State, a: nat)
    requires Locks(s) && Phases(s) && a < |s.acts|
    requires Writing(s.acts[a])
    ensures Phases(WriterStep(s, a))
  {
    var s' := WriterStep(s, a);
    if s.acts[a].SawCasIdle? && s.status.Idle? {
      assert !Processing(s'.status);
      forall b | 0 <= b < |s'.acts| ensures !InBody(s'.acts[b]) && !s'.acts[b].MStore? {
        assert b != a ==> s'.acts[b] == s.acts[b];
      }
    } else {
      hide Phases;
      NotStoring(s);
      PhasesKept(s, s', a);
    }
  }

  lemma NotStoring(s: State)
    requires Phases(s)
    ensures forall b :: 0 <= b < |s.acts| && s.acts[b].SdbStore? ==> !Processing(s.status)
    ensures forall b :: 0 <= b < |s.acts| && s.acts[b].MStore? ==> s.status.ToRequired?
    ensures forall b :: 0 <= b < |s.acts| && InBody(s.acts[b]) ==> Processing(s.status)
  {
  }

  lemma HolderPhases(s: State, a: nat)
    requires Locks(s) && Phases(s) && a < |s.acts|
    requires Holding(s.acts[a])
    ensures Phases(HolderStep(s, a))
  {
    hide Phases, Locks;
    NotStoring(s);
    PhasesKept(s, HolderStep(s, a), a);
  }

  lemma SchedulePhases(s: State, a: nat, inline: bool)
    requires Locks(s) && Phases(s) && a < |s.acts|
    requires Scheduling(s.acts[a])
    ensures Phases(ScheduleStep(s, a, inline))
  {
    hide Phases, Locks, ScheduleStep;
    if s.acts[a].SdbStore? {
      StorePhases(s, a, inline);
    } else if s.acts[a].SdbHand? {
      HandPhases(s, a, inline);
    } else {
      NotStoring(s);
      ScheduleMoves(s, a, inline);
      PhasesKept(s, ScheduleStep(s, a, inline), a);
    }
  }

  lemma StorePhases(s: State, a: nat, inline: bool)
    requires Locks(s) && Phases(s) && a < |s.acts| && s.acts[a].SdbStore?
    ensures Phases(ScheduleStep(s, a, inline))
  {
    hide Phases, Locks;
    PhasesOwner(s, ScheduleStep(s, a, inline), a);
  }

  lemma HandPhases(s: State, a: nat, inline: bool)
    requires Locks(s) && Phases(s) && a < |s.acts| && s.acts[a].SdbHand?
    ensures Phases(ScheduleStep(s, a, inline))
  {
    hide Phases, Locks;
    NotStoring(s);
    PhasesKept(s, ScheduleStep(s, a, inline), a);
  }

  lemma DrainPhases(s: State, a: nat)
    requires Locks(s) && Tokens(s) && Phases(s) && a < |s.acts|
    requires var pc := s.acts[a]; pc.JobTryLock? || pc.JobToken? || pc.Lock? || pc.MStart? || pc.MPop? || pc.MBody? || pc.MLoad? || pc.MCas? || pc.MStore? || pc.MUnlock? || pc.Reschedule? || pc.Done?
    ensures Phases(DrainStep(s, a))
  {
    hide Phases, Locks, Tokens, DrainStep;
    if StillDrain(s.acts[a], s.status) {
      NotStoring(s);
      DrainMoves(s, a);
      PhasesKept(s, DrainStep(s, a), a);
    } else {
      SetPhases(s, a);
    }
  }

  lemma SetPhases(s: State, a: nat)
    requires Locks(s) && Phases(s) && a < |s.acts|
    requires var pc := s.acts[a]; pc.MStart? || pc.MPop? || pc.MStore? || (pc.MCas? && s.status.ToIdle?)
    ensures Phases(DrainStep(s, a))
  {
    hide Phases, Locks;
    NotStoring(s);
    var s' := DrainStep(s, a);
    if s.acts[a].MPop? && s.acts[a].i <= s.capacity {
      PhasesKept(s, s', a);
    } else {
      PhasesOwner(s, s', a);
    }
  }

  // ---------- Writes ----------

  /** A step after which every task still in the buffer was there before, and no writer of one has moved on. */
  lemma WritesKept(s: State, s': State, a: nat)
    requires Writes(s) && Moves(s, s', a)
    requires forall x :: x in s'.buffer ==> x in s.buffer
    requires BeforePush(s'.acts[a]) ==> BeforePush(s.acts[a]) || a !in s'.buffer
    requires a in s'.buffer ==> (Undecided(s, a) ==> Undecided(s', a)) && (InScheduleAfterWrite(s, a) ==> InScheduleAfterWrite(s', a))
    requires s'.status == s.status || (s.status.ToIdle? && s'.status.ToRequired?)
    requires AfterPops(s'.acts[a]) && !AfterPops(s.acts[a]) ==> s'.buffer == [] || !s'.status.ToIdle?
    ensures Writes(s')
  {
    forall x | x in s'.buffer ensures x < |s'.acts| {
      assert x in s.buffer;
    }
    forall x | x in s'.buffer && Undecided(s, x) ensures Undecided(s', x) {
      assert x != a ==> s'.acts[x] == s.acts[x];
    }
    forall x | x in s'.buffer && InScheduleAfterWrite(s, x) ensures InScheduleAfterWrite(s', x) {
      assert x != a ==> s'.acts[x] == s.acts[x];
    }
    forall b | 0 <= b < |s'.acts| && AfterPops(s'.acts[b]) && s'.status.ToIdle?
      ensures forall x :: x in s'.buffer ==> Undecided(s', x)
    {
      if b < |s.acts| && (b != a || AfterPops(s.acts[a])) {
        assert AfterPops(s.acts[b]);
      }
    }
    forall x | 0 <= x < |s'.acts| && BeforePush(s'.acts[x]) ensures x !in s'.buffer {
      if x < |s.acts| && x != a {
        assert s'.acts[x] == s.acts[x];
      }
    }
  }

  /** A step by which the status leaves the states that say something about the writers. */
  lemma WritesBy(s: State, s': State, a: nat)
    requires Writes(s) && Moves(s, s', a) && |s'.acts| == |s.acts|
    requires forall x :: x in s'.buffer ==> x in s.buffer
    requires BeforePush(s'.acts[a]) ==> BeforePush(s.acts[a])
    requires !s'.status.Idle?
    requires s'.status.ToIdle? ==> forall b :: 0 <= b < |s'.acts| ==> !AfterPops(s'.acts[b])
    ensures Writes(s')
  {
    forall x | 0 <= x < |s'.acts| && BeforePush(s'.acts[x]) ensures x !in s'.buffer {
      assert BeforePush(s.acts[x]);
    }
  }

  lemma NoneAfterPops(s: State, s': State, a: nat)
    requires Locks(s) && Moves(s, s', a) && |s'.acts| == |s.acts| && Owner(s, a) && !AfterPops(s'.acts[a])
    ensures forall b :: 0 <= b < |s'.acts| ==> !AfterPops(s'.acts[b])
  {
    forall b | 0 <= b < |s'.acts| ensures !AfterPops(s'.acts[b]) {
      if b != a {
        Alone(s, a, b);
        assert s'.acts[b] == s.acts[b];
      }
    }
  }

  lemma PushWrites(s: State, a: nat)
    requires Writes(s) && a < |s.acts| && s.acts[a].Push?
    ensures Writes(WriterStep(s, a))
  {
    var s' := WriterStep(s, a);
    if s.acts[a].left > 0 && |s.buffer| < s.capacity {
      forall x | x in s'.buffer ensures x < |s'.acts| && (x != a ==> x in s.buffer) && (x == a ==> Undecided(s', x)) {
      }
      forall x | x in s.buffer && Undecided(s, x) ensures Undecided(s', x) {
      }
      forall x | x in s.buffer && InScheduleAfterWrite(s, x) ensures InScheduleAfterWrite(s', x) {
      }
      forall b | 0 <= b < |s'.acts| && AfterPops(s'.acts[b]) && s'.status.ToIdle?
        ensures forall x :: x in s'.buffer ==> Undecided(s', x)
      {
        assert AfterPops(s.acts[b]);
      }
    } else {
      WritesKept(s, s', a);
    }
  }

  lemma SawWrites(s: State, a: nat)
    requires Writes(s) && a < |s.acts| && (s.acts[a].SawLoad? || s.acts[a].SawCasIdle? || s.acts[a].SawCasProcessing?)
    ensures Writes(WriterStep(s, a))
  {
    var s' := WriterStep(s, a);
    var pc := s.acts[a];
    if pc.SawLoad? && s.status.Idle? {
      SawIdle(s, s', a);
    } else if (pc.SawLoad? && !s.status.ToIdle?) || pc.SawCasIdle? || (pc.SawCasProcessing? && s.status.ToIdle?) {
      SawDecided(s, s', a);
    } else {
      WritesKept(s, s', a);
    }
  }

  lemma SawIdle(s: State, s': State, a: nat)
    requires Writes(s) && a < |s.acts| && s.acts[a].SawLoad? && s.status.Idle?
    requires s' == Goto(s, a, SawCasIdle)
    ensures Writes(s')
  {
    forall x | x in s.buffer ensures InScheduleAfterWrite(s', x) {
      assert InScheduleAfterWrite(s, x);
    }
    forall x | 0 <= x < |s'.acts| && BeforePush(s'.acts[x]) ensures x !in s'.buffer {
      assert BeforePush(s.acts[x]);
    }
  }

  /** The writer acts on the status: afterwards the status is not Idle, and not ToIdle behind a finished pop loop. */
  lemma SawDecided(s: State, s': State, a: nat)
    requires Writes(s) && a < |s.acts|
    requires (s.acts[a].SawLoad? && (s.status.Required? || s.status.ToRequired?)) || s.acts[a].SawCasIdle?
             || (s.acts[a].SawCasProcessing? && s.status.ToIdle?)
    requires s' == WriterStep(s, a)
    ensures Writes(s')
  {
    forall x | 0 <= x < |s'.acts| && BeforePush(s'.acts[x]) ensures x !in s'.buffer {
      assert BeforePush(s.acts[x]);
    }
    forall x | x in s'.buffer && Undecided(s, x) && s'.status.ToIdle? ensures Undecided(s', x) {
      assert x != a;
    }
    forall b | 0 <= b < |s'.acts| && AfterPops(s'.acts[b]) && s'.status.ToIdle?
      ensures forall x :: x in s'.buffer ==> Undecided(s', x)
    {
      assert AfterPops(s.acts[b]);
    }
  }

  lemma HolderWrites(s: State, a: nat)
    requires Writes(s) && a < |s.acts|
    requires Holding(s.acts[a])
    ensures Writes(HolderStep(s, a))
  {
    WritesKept(s, HolderStep(s, a), a);
  }

  lemma ScheduleWrites(s: State, a: nat, inline: bool)
    requires Locks(s) && Writes(s) && a < |s.acts|
    requires Scheduling(s.acts[a])
    ensures Writes(ScheduleStep(s, a, inline))
  {
    hide Locks, Writes, ScheduleStep;
    if s.acts[a].SdbStore? {
      StoreWrites(s, a, inline);
    } else if s.acts[a].SdbHand? {
      HandWrites(s, a, inline);
    } else {
      ScheduleMoves(s, a, inline);
      WritesKept(s, ScheduleStep(s, a, inline), a);
    }
  }

  lemma StoreWrites(s: State, a: nat, inline: bool)
    requires Locks(s) && Writes(s) && a < |s.acts| && s.acts[a].SdbStore?
    ensures Writes(ScheduleStep(s, a, inline))
  {
    hide Writes, Locks;
    var s' := ScheduleStep(s, a, inline);
    NoneAfterPops(s, s', a);
    WritesBy(s, s', a);
  }

  lemma HandWrites(s: State, a: nat, inline: bool)
    requires Writes(s) && a < |s.acts| && s.acts[a].SdbHand?
    ensures Writes(ScheduleStep(s, a, inline))
  {
    hide Writes;
    WritesKept(s, ScheduleStep(s, a, inline), a);
  }

  lemma DrainWrites(s: State, a: nat)
    requires Locks(s) && Phases(s) && Writes(s) && a < |s.acts|
    requires var pc := s.acts[a]; pc.JobTryLock? || pc.JobToken? || pc.Lock? || pc.MBody? || pc.MLoad? || pc.MUnlock? || pc.Reschedule? || pc.Done?
    ensures Writes(DrainStep(s, a))
  {
    hide Locks, Phases, Writes, DrainStep;
    DrainMoves(s, a);
    WritesKept(s, DrainStep(s, a), a);
  }

  /** A drain sets the status, or takes a task out of the buffer. */
  lemma PopWrites(s: State, a: nat)
    requires Locks(s) && Phases(s) && Writes(s) && a < |s.acts|
    requires var pc := s.acts[a]; pc.MStart? || pc.MPop? || pc.MStore?
    ensures Writes(DrainStep(s, a))
  {
    hide Locks, Phases, Writes;
    var s' := DrainStep(s, a);
    var pc := s.acts[a];
    if pc.MStart? {
      NoneAfterPops(s, s', a);
      WritesBy(s, s', a);
    } else if pc.MStore? || pc.i > s.capacity {
      WritesBy(s, s', a);
    } else {
      WritesKept(s, s', a);
    }
  }

  /** The drain goes idle only when no writer relies on it. */
  lemma CasWrites(s: State, a: nat)
    requires Writes(s) && a < |s.acts| && s.acts[a].MCas?
    ensures Writes(DrainStep(s, a))
  {
    var s' := DrainStep(s, a);
    if s.status.ToIdle? {
      assert AfterPops(s.acts[a]);
      forall x | x in s'.buffer ensures InScheduleAfterWrite(s', x) {
        assert Undecided(s, x);
      }
      forall x | 0 <= x < |s'.acts| && BeforePush(s'.acts[x]) ensures x !in s'.buffer {
        assert BeforePush(s.acts[x]);
      }
    } else {
      WritesKept(s, s', a);
    }
  }

  // ---------- Every step ----------

  lemma Parts(s: State)
    requires Inv(s)
    ensures Locks(s) && Tokens(s) && Phases(s) && Writes(s)
  {
  }

  lemma Whole(s: State)
    requires Locks(s) && Tokens(s) && Phases(s) && Writes(s)
    ensures Inv(s)
  {
  }

  lemma BeginOk(s: State, op: Op)
    requires Inv(s)
    ensures Inv(Step(s, Begin(op)))
  {
    var s' := Step(s, Begin(op));
    assert forall b :: 0 <= b < |s.acts| ==> s'.acts[b] == s.acts[b];
    BeginLocks(s, s');
    BeginTokens(s, s');
    BeginPhases(s, s');
    BeginWrites(s, s');
  }

  /** A new activity at the end, which is at its very first step. */
  ghost predicate Starts(s: State, s': State) {
    && s' == s.(acts := s'.acts) && |s'.acts| == |s.acts| + 1
    && (forall b :: 0 <= b < |s.acts| ==> s'.acts[b] == s.acts[b])
    && exists op :: s'.acts[|s.acts|] == First(op)
  }

  lemma BeginLocks(s: State, s': State)
    requires Locks(s) && Starts(s, s')
    ensures Locks(s')
  {
    forall b | 0 <= b < |s'.acts| && Owner(s', b) ensures b < |s.acts| && Owner(s, b) {
    }
    if s.locked {
      var o :| 0 <= o < |s.acts| && Owner(s, o);
      assert Owner(s', o);
    }
  }

  lemma BeginTokens(s: State, s': State)
    requires Tokens(s) && Starts(s, s')
    ensures Tokens(s')
  {
    forall i | 0 <= i < |s'.tokens| && !s'.tokens[i] ensures s'.schedulers[i] < |s'.acts| && AwaitsToken(s'.acts[s'.schedulers[i]], i) {
      assert AwaitsToken(s.acts[s.schedulers[i]], i);
    }
    forall b | 0 <= b < |s'.acts| ensures HoldsToken(s', b) {
      if b < |s.acts| {
        assert HoldsToken(s, b);
      }
    }
  }

  lemma BeginPhases(s: State, s': State)
    requires Phases(s) && Starts(s, s')
    ensures Phases(s')
  {
    if Processing(s.status) {
      var o :| 0 <= o < |s.acts| && (Draining(s.acts[o]) || AfterPops(s.acts[o]) || s.acts[o].MStore?);
      assert s'.acts[o] == s.acts[o];
    }
  }

  lemma BeginWrites(s: State, s': State)
    requires Writes(s) && Starts(s, s')
    ensures Writes(s')
  {
    forall x | x in s.buffer ensures x < |s.acts| && s'.acts[x] == s.acts[x] {
    }
    forall b | 0 <= b < |s'.acts| && AfterPops(s'.acts[b]) && s'.status.ToIdle?
      ensures forall x :: x in s'.buffer ==> Undecided(s', x)
    {
      assert AfterPops(s.acts[b]);
      assert forall x :: x in s.buffer ==> Undecided(s, x);
    }
    forall x | x in s.buffer && InScheduleAfterWrite(s, x) ensures InScheduleAfterWrite(s', x) {
    }
  }

  lemma GoOk(s: State, a: nat, inline: bool)
    requires Inv(s) && a < |s.acts|
    ensures Inv(GoStep(s, a, inline))
  {
    hide Inv, Locks, Tokens, Phases, Writes, WriterStep, HolderStep, ScheduleStep, DrainStep;
    Parts(s);
    var pc := s.acts[a];
    if Writing(pc) {
      WriterLocks(s, a);
      WriterPhases(s, a);
      if pc.Push? { PushWrites(s, a); } else { SawWrites(s, a); }
    } else if Holding(pc) {
      HolderLocks(s, a);
      HolderPhases(s, a);
      HolderWrites(s, a);
    } else if Scheduling(pc) {
      if pc.SdbHand? { HandLocks(s, a, inline); }
      else if pc.SdbWait? || pc.SdbToken? { TokenLocks(s, a, inline); }
      else { ScheduleLocks(s, a, inline); }
      SchedulePhases(s, a, inline);
      ScheduleWrites(s, a, inline);
    } else {
      if pc.JobTryLock? || pc.JobToken? { JobLocks(s, a); } else { DrainLocks(s, a); }
      DrainPhases(s, a);
      if pc.MCas? { CasWrites(s, a); }
      else if pc.MStart? || pc.MPop? || pc.MStore? { PopWrites(s, a); }
      else { DrainWrites(s, a); }
    }
    Whole(GoStep(s, a, inline));
  }

  /** Every step of every activity keeps the invariant. */
  lemma StepOk(s: State, x: Action)
    requires Inv(s)
    ensures Inv(Step(s, x))
  {
    hide Inv, GoStep;
    match x
    case Begin(op) => BeginOk(s, op);
    case Go(a, inline) => if a < |s.acts| { GoOk(s, a, inline); }
  }

  lemma {:induction false} RunOk(s: State, actions: seq<Action>)
    requires Inv(s)
    ensures Inv(Run(s, actions))
    decreases |actions|
  {
    hide Inv, Step;
    if actions != [] {
      StepOk(s, actions[0]);
      RunOk(Step(s, actions[0]), actions[1..]);
    }
  }

  lemma Reachable(capacity: nat, defaultExecutor: bool, actions: seq<Action>)
    ensures Inv(Run(New(capacity, defaultExecutor), actions))
  {
    RunOk(New(capacity, defaultExecutor), actions);
  }

  // ---------- Theorems ----------

  ghost predicate SomeoneDraining(s: State) {
    exists a :: 0 <= a < |s.acts| && Draining(s.acts[a])
  }

  /**
    No forgotten write: over every run, a task in the buffer whose writer has acted on
    the drain status is seen by a drain that is still popping or about to, or the
    status asks for another drain.
  */
  lemma NoForgottenWrite(capacity: nat, defaultExecutor: bool, actions: seq<Action>, x: nat)
    ensures var s := Run(New(capacity, defaultExecutor), actions);
      x in s.buffer && !InScheduleAfterWrite(s, x) ==>
        s.status.Required? || s.status.ToRequired? || (s.status.ToIdle? && SomeoneDraining(s))
  {
    var s := Run(New(capacity, defaultExecutor), actions);
    Reachable(capacity, defaultExecutor, actions);
    if x in s.buffer && !InScheduleAfterWrite(s, x) {
      Covered(s, x);
    }
  }

  lemma Covered(s: State, x: nat)
    requires Inv(s) && x in s.buffer && !InScheduleAfterWrite(s, x)
    ensures s.status.Required? || s.status.ToRequired? || (s.status.ToIdle? && SomeoneDraining(s))
  {
    if s.status.ToIdle? {
      var o :| 0 <= o < |s.acts| && (Draining(s.acts[o]) || AfterPops(s.acts[o]) || s.acts[o].MStore?);
      if !Draining(s.acts[o]) {
        assert false;
      }
    }
  }

  /** Once every activity is done the mutex is free, no token is open, and work left over is announced by the status. */
  lemma Quiescent(capacity: nat, defaultExecutor: bool, actions: seq<Action>)
    ensures var s := Run(New(capacity, defaultExecutor), actions);
      (forall a :: 0 <= a < |s.acts| ==> s.acts[a].Done?) ==>
        && !s.locked && !Processing(s.status)
        && (forall i :: 0 <= i < |s.releases| ==> s.releases[i] == 1)
        && (forall i :: 0 <= i < |s.tokens| ==> s.tokens[i])
        && (s.buffer != [] ==> s.status.Required?)
  {
    var s := Run(New(capacity, defaultExecutor), actions);
    Reachable(capacity, defaultExecutor, actions);
    if forall a :: 0 <= a < |s.acts| ==> s.acts[a].Done? {
      if s.buffer != [] {
        assert s.buffer[0] in s.buffer;
        Covered(s, s.buffer[0]);
      }
      forall i | 0 <= i < |s.tokens| ensures s.tokens[i] {
        if !s.tokens[i] {
          TokenOwner(s, i);
          assert false;
        }
      }
    }
  }

  /**
    Lock handover: whoever runs a handed drain and whoever wins its token, no free mutex
    is unlocked, each acquisition but a current one was released exactly once, a current
    one not yet, and at most one activity is inside maintenance, with the mutex held and
    the status a processing state throughout.
  */
  lemma LockHandover(capacity: nat, defaultExecutor: bool, actions: seq<Action>)
    ensures var s := Run(New(capacity, defaultExecutor), actions);
      && !s.fatal
      && (forall i :: 0 <= i < |s.releases| ==> s.releases[i] == if s.locked && i == |s.releases| - 1 then 0 else 1)
      && (forall a :: 0 <= a < |s.acts| && InBody(s.acts[a]) ==> s.locked && Processing(s.status))
      && (forall a, b :: 0 <= a < |s.acts| && 0 <= b < |s.acts| && InBody(s.acts[a]) && InBody(s.acts[b]) ==> a == b)
  {
    var s := Run(New(capacity, defaultExecutor), actions);
    Reachable(capacity, defaultExecutor, actions);
    forall a | 0 <= a < |s.acts| && InBody(s.acts[a]) ensures s.locked && Processing(s.status) {
      assert Owner(s, a);
    }
    forall a, b | 0 <= a < |s.acts| && 0 <= b < |s.acts| && InBody(s.acts[a]) && InBody(s.acts[b]) ensures a == b {
      assert Owner(s, a) && Owner(s, b);
    }
  }
}
