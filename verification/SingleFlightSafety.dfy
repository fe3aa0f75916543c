/** No stale load: a call cancelled by a write never changes the entry, and each call's waiters are released once. */
module SingleFlightSafety {
  import opened SingleFlight

  lemma InitOk()
    ensures Inv(New())
  {
  }

  // ---------- Getters ----------

  lemma GetterKept(s: State, g: nat, me: Getter)
    requires Inv(s) && g < |s.getters| && GetterOk(me, s.initialized, s.calls)
    ensures Inv(s.(getters := s.getters[g := me]))
  {
  }

  lemma RegisterOk(s: State, g: nat)
    requires Inv(s) && g < |s.getters| && s.getters[g].pc.GStart? && s.getters[g].key !in s.registered
    ensures Inv(GetterStep(s, g))
  {
    var s' := GetterStep(s, g);
    var me := s.getters[g];
    assert GetterOk(me, s.initialized, s.calls);
    forall c | 0 <= c < |s'.calls| ensures CallOk(s'.calls[c], c, s'.initialized, s'.registered, s'.locks) {
      if c < |s.calls| {
        assert CallOk(s.calls[c], c, s.initialized, s.registered, s.locks);
      }
    }
    forall h | 0 <= h < |s'.getters| ensures GetterOk(s'.getters[h], s'.initialized, s'.calls) {
      assert GetterOk(s.getters[h], s.initialized, s.calls);
    }
    forall k | k in s'.registered ensures RegisteredOk(s'.registered, s'.calls, k) {
      assert k in s.registered ==> RegisteredOk(s.registered, s.calls, k);
    }
  }

  lemma InitializeOk(s: State, g: nat)
    requires Inv(s) && g < |s.getters| && s.getters[g].pc.GInit?
    ensures Inv(GetterStep(s, g))
  {
    forall c | 0 <= c < |s.calls| ensures CallOk(s.calls[c], c, true, s.registered, s.locks) {
      assert CallOk(s.calls[c], c, s.initialized, s.registered, s.locks);
    }
    forall h | 0 <= h < |s.getters| ensures GetterOk(s.getters[h], true, s.calls) {
      assert GetterOk(s.getters[h], s.initialized, s.calls);
    }
  }

  lemma GetterStepOk(s: State, g: nat)
    requires Inv(s) && g < |s.getters|
    ensures Inv(GetterStep(s, g))
  {
    var me := s.getters[g];
    assert GetterOk(me, s.initialized, s.calls);
    if me.pc.GInit? {
      InitializeOk(s, g);
    } else if me.pc.GStart? && me.key !in s.registered {
      RegisterOk(s, g);
    } else {
      if me.key in s.registered {
        assert RegisteredOk(s.registered, s.calls, me.key);
      }
      if me.pc.GWait? {
        assert CallOk(s.calls[me.pc.call], me.pc.call, s.initialized, s.registered, s.locks);
      }
      GetterKept(s, g, GetterStep(s, g).getters[g]);
    }
  }

  // ---------- Writers ----------

  lemma WriterLockOk(s: State, w: nat)
    requires Inv(s) && w < |s.writers| && (s.writers[w].pc.WLock? || s.writers[w].pc.WUnlock?)
    ensures Inv(WriterStep(s, w))
  {
    var s' := WriterStep(s, w);
    var me := s.writers[w];
    assert WriterOk(me, w, s.locks);
    forall c | 0 <= c < |s.calls| ensures CallOk(s'.calls[c], c, s'.initialized, s'.registered, s'.locks) {
      assert CallOk(s.calls[c], c, s.initialized, s.registered, s.locks);
    }
    forall v | 0 <= v < |s.writers| ensures WriterOk(s'.writers[v], v, s'.locks) {
      assert WriterOk(s.writers[v], v, s.locks);
    }
  }

  /** The writer cancels whatever is registered for the key. */
  lemma WriterDeleteOk(s: State, w: nat)
    requires Inv(s) && w < |s.writers| && s.writers[w].pc.WDelete?
    ensures Inv(WriterStep(s, w))
  {
    var s' := WriterStep(s, w);
    var me := s.writers[w];
    assert WriterOk(me, w, s.locks);
    forall c | 0 <= c < |s.calls| ensures CallOk(s'.calls[c], c, s'.initialized, s'.registered, s'.locks) {
      assert CallOk(s.calls[c], c, s.initialized, s.registered, s.locks);
    }
    forall v | 0 <= v < |s.writers| ensures WriterOk(s'.writers[v], v, s'.locks) {
      assert WriterOk(s.writers[v], v, s.locks);
    }
    forall g | 0 <= g < |s.getters| ensures GetterOk(s'.getters[g], s'.initialized, s'.calls) {
      assert GetterOk(s.getters[g], s.initialized, s.calls);
    }
    forall k | k in s'.registered ensures RegisteredOk(s'.registered, s'.calls, k) {
      assert RegisteredOk(s.registered, s.calls, k);
    }
  }

  lemma WriterKept(s: State, w: nat, me: Writer, entries: map<nat, nat>)
    requires Inv(s) && w < |s.writers| && WriterOk(me, w, s.locks)
    ensures Inv(s.(writers := s.writers[w := me], entries := entries))
  {
  }

  lemma WriterStepOk(s: State, w: nat)
    requires Inv(s) && w < |s.writers|
    ensures Inv(WriterStep(s, w))
  {
    var me := s.writers[w];
    if me.pc.WLock? || me.pc.WUnlock? {
      WriterLockOk(s, w);
    } else if me.pc.WDelete? {
      WriterDeleteOk(s, w);
    } else {
      assert WriterOk(me, w, s.locks);
      WriterKept(s, w, WriterStep(s, w).writers[w], WriterStep(s, w).entries);
    }
  }

  // ---------- Calls ----------

  /** A step of call c that concerns the registry and the locks of its own key only. */
  lemma CallKept(s: State, s': State, c: nat)
    requires Inv(s) && c < |s.calls|
    requires |s'.calls| == |s.calls|
    requires s' == s.(entries := s'.entries, registered := s'.registered, locks := s'.locks, calls := s.calls[c := s'.calls[c]])
    requires s'.calls[c].key == s.calls[c].key && s'.calls[c].fake == s.calls[c].fake
    requires CallOk(s'.calls[c], c, s.initialized, s'.registered, s'.locks)
    requires s.calls[c].pc.Over? ==> s'.calls[c].pc.Over?
    requires forall d :: 0 <= d < |s.calls| && d != c ==> CallOk(s.calls[d], d, s.initialized, s'.registered, s'.locks)
    requires forall w :: 0 <= w < |s.writers| ==> WriterOk(s.writers[w], w, s'.locks)
    requires forall k :: k in s'.registered ==> RegisteredOk(s'.registered, s'.calls, k)
    ensures Inv(s')
  {
    forall d | 0 <= d < |s'.calls| ensures CallOk(s'.calls[d], d, s'.initialized, s'.registered, s'.locks) {
      assert d != c ==> s'.calls[d] == s.calls[d];
    }
    forall g | 0 <= g < |s.getters| ensures GetterOk(s'.getters[g], s'.initialized, s'.calls) {
      assert GetterOk(s.getters[g], s.initialized, s.calls);
    }
  }

  lemma CallLockOk(s: State, c: nat, loaded: Outcome)
    requires Inv(s) && c < |s.calls| && (s.calls[c].pc.Finishing? || s.calls[c].pc.Unlocking?)
    ensures Inv(CallStep(s, c, loaded))
  {
    var s' := CallStep(s, c, loaded);
    assert CallOk(s.calls[c], c, s.initialized, s.registered, s.locks);
    if s' != s {
      forall d | 0 <= d < |s.calls| && d != c ensures CallOk(s.calls[d], d, s.initialized, s'.registered, s'.locks) {
        assert CallOk(s.calls[d], d, s.initialized, s.registered, s.locks);
      }
      forall w | 0 <= w < |s.writers| ensures WriterOk(s.writers[w], w, s'.locks) {
        assert WriterOk(s.writers[w], w, s.locks);
      }
      forall k | k in s'.registered ensures RegisteredOk(s'.registered, s'.calls, k) {
        assert RegisteredOk(s.registered, s.calls, k);
      }
      CallKept(s, s', c);
    }
  }

  /** Under the lock the second look at the registry still finds the call. */
  lemma CallRemoveOk(s: State, c: nat, loaded: Outcome)
    requires Inv(s) && c < |s.calls| && s.calls[c].pc.Removing?
    ensures Inv(CallStep(s, c, loaded))
  {
    var s' := CallStep(s, c, loaded);
    assert CallOk(s.calls[c], c, s.initialized, s.registered, s.locks);
    forall d | 0 <= d < |s.calls| && d != c ensures CallOk(s.calls[d], d, s.initialized, s'.registered, s'.locks) {
      assert CallOk(s.calls[d], d, s.initialized, s.registered, s.locks);
    }
    forall k | k in s'.registered ensures RegisteredOk(s'.registered, s'.calls, k) {
      assert RegisteredOk(s.registered, s.calls, k);
    }
    CallKept(s, s', c);
  }

  lemma CallLoadOk(s: State, c: nat, loaded: Outcome)
    requires Inv(s) && c < |s.calls|
    requires var pc := s.calls[c].pc; pc.Loading? || pc.Checking?
    ensures Inv(CallStep(s, c, loaded))
  {
    var s' := CallStep(s, c, loaded);
    assert CallOk(s.calls[c], c, s.initialized, s.registered, s.locks);
    if s' != s {
      forall k | k in s'.registered ensures RegisteredOk(s'.registered, s'.calls, k) {
        assert RegisteredOk(s.registered, s.calls, k);
      }
      CallKept(s, s', c);
    }
  }

  lemma CallDecideOk(s: State, c: nat, loaded: Outcome)
    requires Inv(s) && c < |s.calls|
    requires s.calls[c].pc.Deciding?
    ensures Inv(CallStep(s, c, loaded))
  {
    var s' := CallStep(s, c, loaded);
    assert CallOk(s.calls[c], c, s.initialized, s.registered, s.locks);
    forall k | k in s'.registered ensures RegisteredOk(s'.registered, s'.calls, k) {
      assert RegisteredOk(s.registered, s.calls, k);
    }
    CallKept(s, s', c);
  }

  lemma CallMoveOk(s: State, c: nat, loaded: Outcome)
    requires Inv(s) && c < |s.calls|
    requires var pc := s.calls[c].pc; pc.Cancelling? || pc.Over?
    ensures Inv(CallStep(s, c, loaded))
  {
    var s' := CallStep(s, c, loaded);
    assert CallOk(s.calls[c], c, s.initialized, s.registered, s.locks);
    if s' != s {
      forall k | k in s'.registered ensures RegisteredOk(s'.registered, s'.calls, k) {
        assert RegisteredOk(s.registered, s.calls, k);
      }
      CallKept(s, s', c);
    }
  }

  lemma CallStepOk(s: State, c: nat, loaded: Outcome)
    requires Inv(s) && c < |s.calls|
    ensures Inv(CallStep(s, c, loaded))
  {
    var pc := s.calls[c].pc;
    if pc.Finishing? || pc.Unlocking? {
      CallLockOk(s, c, loaded);
    } else if pc.Removing? {
      CallRemoveOk(s, c, loaded);
    } else if pc.Loading? || pc.Checking? {
      CallLoadOk(s, c, loaded);
    } else if pc.Deciding? {
      CallDecideOk(s, c, loaded);
    } else {
      CallMoveOk(s, c, loaded);
    }
  }

  // ---------- Every run ----------

  lemma BeginOk(s: State, x: Action)
    requires Inv(s) && (x.BeginGet? || x.BeginWrite? || x.BeginFake?)
    ensures Inv(Step(s, x))
  {
    var s' := Step(s, x);
    forall c | 0 <= c < |s'.calls| ensures CallOk(s'.calls[c], c, s'.initialized, s'.registered, s'.locks) {
      assert c < |s.calls| ==> CallOk(s.calls[c], c, s.initialized, s.registered, s.locks);
    }
    forall g | 0 <= g < |s'.getters| ensures GetterOk(s'.getters[g], s'.initialized, s'.calls) {
      assert g < |s.getters| ==> GetterOk(s.getters[g], s.initialized, s.calls);
    }
    forall k | k in s'.registered ensures RegisteredOk(s'.registered, s'.calls, k) {
      assert RegisteredOk(s.registered, s.calls, k);
    }
  }

  /** Every step of every activity keeps the invariant. */
  lemma StepOk(s: State, x: Action)
    requires Inv(s)
    ensures Inv(Step(s, x))
  {
    hide Inv, GetterStep, WriterStep, CallStep;
    match x
    case GoGetter(g) => if g < |s.getters| { GetterStepOk(s, g); }
    case GoWriter(w) => if w < |s.writers| { WriterStepOk(s, w); }
    case GoCall(c, loaded) => if c < |s.calls| { CallStepOk(s, c, loaded); }
    case _ => BeginOk(s, x);
  }

  lemma {:induction false} RunOk(s: State, actions: seq<Action>)
    requires Inv(s)
    ensures Inv(Run(s, actions))
    decreases |actions|
  {
    hide Inv, Step;
    if actions != [] {
      StepOk(s, actions[0]);
      RunOk(Step(s, actions[0]), actions[1..]);
    }
  }

  lemma {:induction false} RunSplit(s: State, a: seq<Action>, b: seq<Action>)
    ensures Run(s, a + b) == Run(Run(s, a), b)
    decreases |a|
  {
    hide Step;
    if a == [] {
      assert a + b == b;
    } else {
      assert (a + b)[1..] == a[1..] + b;
      RunSplit(Step(s, a[0]), a[1..], b);
    }
  }

  /** A real call for the key whose outcome has not been dealt with. */
  predicate Ongoing(s: State, c: nat, key: nat) {
    c < |s.calls| && s.calls[c].key == key && !s.calls[c].fake && UnderWay(s.calls[c].pc)
  }

  predicate Doomed(s: State, c: nat) {
    c < |s.calls| && !s.calls[c].fake && s.calls[c].doomed
  }

  lemma DoomedStays(s: State, x: Action, c: nat)
    requires Doomed(s, c)
    ensures Doomed(Step(s, x), c)
  {
    hide GetterStep, WriterStep, CallStep, Doom;
    match x
    case GoGetter(g) => if g < |s.getters| { DoomedByGetter(s, g, c); }
    case GoWriter(w) => if w < |s.writers| { DoomedByWriter(s, w, c); }
    case GoCall(d, loaded) => if d < |s.calls| { DoomedByCall(s, d, loaded, c); }
    case _ =>
  }

  lemma DoomedByGetter(s: State, g: nat, c: nat)
    requires Doomed(s, c) && g < |s.getters|
    ensures Doomed(GetterStep(s, g), c)
  {
  }

  lemma DoomedByWriter(s: State, w: nat, c: nat)
    requires Doomed(s, c) && w < |s.writers|
    ensures Doomed(WriterStep(s, w), c)
  {
  }

  lemma DoomedByCall(s: State, d: nat, loaded: Outcome, c: nat)
    requires Doomed(s, c) && d < |s.calls|
    ensures Doomed(CallStep(s, d, loaded), c)
  {
  }

  lemma {:induction false} DoomedRuns(s: State, actions: seq<Action>, c: nat)
    requires Doomed(s, c)
    ensures Doomed(Run(s, actions), c)
    decreases |actions|
  {
    hide Step, Doomed;
    if actions != [] {
      DoomedStays(s, actions[0], c);
      DoomedRuns(Step(s, actions[0]), actions[1..], c);
    }
  }

  // ---------- Theorems ----------

  /** Over every run a call that is through has changed the entry exactly if no writer cancelled it and it loaded something definite. */
  lemma AppliedExactly(actions: seq<Action>, c: nat)
    ensures var s := Run(New(), actions);
      c < |s.calls| && !s.calls[c].fake ==>
        && (s.calls[c].applied ==> !s.calls[c].doomed)
        && (Decided(s.calls[c].pc) ==> (s.calls[c].applied <==> !s.calls[c].doomed && Effective(s.calls[c].outcome)))
  {
    var s := Run(New(), actions);
    InitOk();
    RunOk(New(), actions);
    if c < |s.calls| {
      assert CallOk(s.calls[c], c, s.initialized, s.registered, s.locks);
    }
  }

  /** No stale load: if a writer's cancelling step for the key comes while a call is under way, that call never changes the entry. */
  lemma NoStaleLoad(before: seq<Action>, w: nat, after: seq<Action>, c: nat)
    requires var s := Run(New(), before); w < |s.writers| && s.writers[w].pc.WDelete? && Ongoing(s, c, s.writers[w].key)
    ensures var s := Run(New(), before + [GoWriter(w)] + after);
      c < |s.calls| && !s.calls[c].applied && forall loaded :: Step(s, GoCall(c, loaded)).entries == s.entries
  {
    hide Inv, CallOk;
    var s1 := Run(New(), before);
    var s2 := Step(s1, GoWriter(w));
    RunSplit(New(), before + [GoWriter(w)], after);
    RunSplit(New(), before, [GoWriter(w)]);
    assert Run(s1, [GoWriter(w)]) == s2;
    DoomedRuns(s2, after, c);
    AppliedExactly(before + [GoWriter(w)] + after, c);
    InitOk();
    RunOk(New(), before + [GoWriter(w)] + after);
    DoomedQuiet(Run(s2, after), c);
  }

  /** No step of a cancelled call changes the entries. */
  lemma DoomedQuiet(s: State, c: nat)
    requires Inv(s) && Doomed(s, c)
    ensures forall loaded :: Step(s, GoCall(c, loaded)).entries == s.entries
  {
    assert CallOk(s.calls[c], c, s.initialized, s.registered, s.locks);
    hide Inv;
  }

  /** While the writer has the lock the call waits; once the writer has cancelled it, it is doomed. */
  predicate Watched(s: State, w: nat, c: nat) {
    && w < |s.writers| && c < |s.calls| && s.calls[c].key == s.writers[w].key && !s.calls[c].fake
    && !s.writers[w].pc.WLock?
    && (s.writers[w].pc.WCheck? || s.writers[w].pc.WDelete? ==> s.calls[c].pc.Loading? || s.calls[c].pc.Finishing?)
    && (s.writers[w].pc.WStore? || s.writers[w].pc.WUnlock? || s.writers[w].pc.WDone? ==> s.calls[c].doomed)
  }

  lemma WatchedStep(s: State, x: Action, w: nat, c: nat)
    requires Inv(s) && Watched(s, w, c)
    ensures Watched(Step(s, x), w, c)
  {
    hide Inv, GetterStep, WriterStep, CallStep, Doom, CallOk, WriterOk;
    match x
    case GoGetter(g) => if g < |s.getters| { WatchedGetter(s, g, w, c); }
    case GoWriter(v) => if v < |s.writers| { WatchedWriter(s, v, w, c); }
    case GoCall(d, loaded) => if d < |s.calls| { WatchedCall(s, d, loaded, w, c); }
    case _ =>
  }

  lemma LockOf(s: State, w: nat, c: nat)
    requires Inv(s) && w < |s.writers| && c < |s.calls|
    ensures CallOk(s.calls[c], c, s.initialized, s.registered, s.locks) && WriterOk(s.writers[w], w, s.locks)
  {
  }

  lemma WatchedWriter(s: State, v: nat, w: nat, c: nat)
    requires Inv(s) && Watched(s, w, c) && v < |s.writers|
    ensures Watched(WriterStep(s, v), w, c)
  {
    hide Inv;
    LockOf(s, w, c);
  }

  lemma WatchedCall(s: State, d: nat, loaded: Outcome, w: nat, c: nat)
    requires Inv(s) && Watched(s, w, c) && d < |s.calls|
    ensures Watched(CallStep(s, d, loaded), w, c)
  {
    hide Inv;
    LockOf(s, w, c);
  }

  lemma WatchedGetter(s: State, g: nat, w: nat, c: nat)
    requires g < |s.getters| && Watched(s, w, c)
    ensures Watched(GetterStep(s, g), w, c)
  {
  }

  lemma {:induction false} WatchedRun(s: State, actions: seq<Action>, w: nat, c: nat)
    requires Inv(s) && Watched(s, w, c)
    ensures Watched(Run(s, actions), w, c)
    decreases |actions|
  {
    hide Inv, Step, Watched;
    if actions != [] {
      StepOk(s, actions[0]);
      WatchedStep(s, actions[0], w, c);
      WatchedRun(Step(s, actions[0]), actions[1..], w, c);
    }
  }

  /** A writer that takes the entry's lock while a call is under way keeps that call from ever changing the entry. */
  lemma WriteBeatsEarlierLoad(before: seq<Action>, w: nat, after: seq<Action>, c: nat)
    requires var s := Run(New(), before);
      w < |s.writers| && s.writers[w].pc.WLock? && s.writers[w].key !in s.locks && Ongoing(s, c, s.writers[w].key)
    ensures var s := Run(New(), before + [GoWriter(w)] + after);
      c < |s.calls| && !s.calls[c].applied && forall loaded :: Step(s, GoCall(c, loaded)).entries == s.entries
  {
    var s1 := Run(New(), before);
    var s2 := Step(s1, GoWriter(w));
    InitOk();
    RunOk(New(), before);
    assert CallOk(s1.calls[c], c, s1.initialized, s1.registered, s1.locks);
    StepOk(s1, GoWriter(w));
    WatchedRun(s2, after, w, c);
    RunSplit(New(), before + [GoWriter(w)], after);
    RunSplit(New(), before, [GoWriter(w)]);
    assert Run(s1, [GoWriter(w)]) == s2;
    RunOk(s2, after);
    var s := Run(s2, after);
    assert CallOk(s.calls[c], c, s.initialized, s.registered, s.locks);
    hide Inv;
    if s.calls[c].doomed {
      DoomedQuiet(s, c);
    }
  }

  /** Single flight: two calls for one key that nobody cancelled and that have not finished are the same call. */
  lemma OneCallPerKey(actions: seq<Action>, c: nat, d: nat)
    ensures var s := Run(New(), actions);
      c < |s.calls| && d < |s.calls| && s.calls[c].key == s.calls[d].key && Live(s.calls[c]) && Live(s.calls[d]) ==> c == d
  {
    var s := Run(New(), actions);
    InitOk();
    RunOk(New(), actions);
    if c < |s.calls| && d < |s.calls| {
      assert CallOk(s.calls[c], c, s.initialized, s.registered, s.locks);
      assert CallOk(s.calls[d], d, s.initialized, s.registered, s.locks);
    }
  }

  predicate Live(c: Call) {
    !c.fake && !c.doomed && (c.pc.Loading? || c.pc.Finishing? || c.pc.Checking? || c.pc.Removing?)
  }

  /** Waiters are released exactly once, when the call is over, and a getter that waited returns a call for its key that has an outcome. */
  lemma ReleasedOnce(actions: seq<Action>, c: nat, g: nat)
    ensures var s := Run(New(), actions);
      && (c < |s.calls| && !s.calls[c].fake ==> s.calls[c].releases == if s.calls[c].pc.Over? then 1 else 0)
      && (g < |s.getters| && s.getters[g].pc.GReturned? ==>
            var d := s.getters[g].pc.call;
            d < |s.calls| && s.calls[d].key == s.getters[g].key && s.calls[d].pc.Over? && !s.calls[d].outcome.Pending?)
  {
    var s := Run(New(), actions);
    InitOk();
    RunOk(New(), actions);
    if c < |s.calls| {
      assert CallOk(s.calls[c], c, s.initialized, s.registered, s.locks);
    }
    if g < |s.getters| {
      assert GetterOk(s.getters[g], s.initialized, s.calls);
      if s.getters[g].pc.GReturned? {
        var d := s.getters[g].pc.call;
        assert CallOk(s.calls[d], d, s.initialized, s.registered, s.locks);
      }
    }
  }

  /** The order that matters is that of the cancelling step: a write that cancels before a load registers, but stores after it, is overwritten. */
  function Overtaken(): seq<Action> {
    [BeginGet(0, false), GoGetter(0),
     BeginWrite(0, Put(2)), GoWriter(0), GoWriter(0), GoWriter(0),
     GoGetter(0), GoGetter(0), GoGetter(0),
     GoWriter(0), GoWriter(0),
     GoCall(0, Value(1)), GoCall(0, Pending), GoCall(0, Pending), GoCall(0, Pending), GoCall(0, Pending)]
  }

  /** The states that run passes through. */
  function Passes(i: nat): State
    requires i <= 16
  {
    match i
    case 0 => State(false, map[], map[], map[], [], [], [])
    case 1 => State(false, map[], map[], map[], [], [], [Getter(0, false, GInit)])
    case 2 => State(true, map[], map[], map[], [], [], [Getter(0, false, GLook)])
    case 3 => State(true, map[], map[], map[], [], [Writer(0, Put(2), WLock)], [Getter(0, false, GLook)])
    case 4 => State(true, map[], map[], map[0 := ByWriter(0)], [], [Writer(0, Put(2), WCheck)], [Getter(0, false, GLook)])
    case 5 => State(true, map[], map[], map[0 := ByWriter(0)], [], [Writer(0, Put(2), WDelete)], [Getter(0, false, GLook)])
    case 6 => State(true, map[], map[], map[0 := ByWriter(0)], [], [Writer(0, Put(2), WStore)], [Getter(0, false, GLook)])
    case 7 => State(true, map[], map[], map[0 := ByWriter(0)], [], [Writer(0, Put(2), WStore)], [Getter(0, false, GFast)])
    case 8 => State(true, map[], map[], map[0 := ByWriter(0)], [], [Writer(0, Put(2), WStore)], [Getter(0, false, GStart)])
    case 9 => State(true, map[], map[0 := 0], map[0 := ByWriter(0)], [Call(0, false, Pending, Loading, false, false, 0)], [Writer(0, Put(2), WStore)], [Getter(0, false, GWait(0))])
    case 10 => State(true, map[0 := 2], map[0 := 0], map[0 := ByWriter(0)], [Call(0, false, Pending, Loading, false, false, 0)], [Writer(0, Put(2), WUnlock)], [Getter(0, false, GWait(0))])
    case 11 => State(true, map[0 := 2], map[0 := 0], map[], [Call(0, false, Pending, Loading, false, false, 0)], [Writer(0, Put(2), WDone)], [Getter(0, false, GWait(0))])
    case 12 => State(true, map[0 := 2], map[0 := 0], map[], [Call(0, false, Value(1), Finishing, false, false, 0)], [Writer(0, Put(2), WDone)], [Getter(0, false, GWait(0))])
    case 13 => State(true, map[0 := 2], map[0 := 0], map[0 := ByCall(0)], [Call(0, false, Value(1), Checking, false, false, 0)], [Writer(0, Put(2), WDone)], [Getter(0, false, GWait(0))])
    case 14 => State(true, map[0 := 2], map[0 := 0], map[0 := ByCall(0)], [Call(0, false, Value(1), Removing, false, false, 0)], [Writer(0, Put(2), WDone)], [Getter(0, false, GWait(0))])
    case 15 => State(true, map[0 := 2], map[], map[0 := ByCall(0)], [Call(0, false, Value(1), Deciding(true), false, false, 0)], [Writer(0, Put(2), WDone)], [Getter(0, false, GWait(0))])
    case _ => State(true, map[0 := 1], map[], map[0 := ByCall(0)], [Call(0, false, Value(1), Unlocking, false, true, 0)], [Writer(0, Put(2), WDone)], [Getter(0, false, GWait(0))])
  }

  lemma WriterPasses(i: nat)
    requires 0 <= i < 6
    ensures Step(Passes(i), Overtaken()[i]) == Passes(i + 1)
  {
    var s := Step(Passes(i), Overtaken()[i]);
    assert s.locks == Passes(i + 1).locks;
    assert s.registered == Passes(i + 1).registered;
    assert s.entries == Passes(i + 1).entries;
  }

  lemma GetterPasses(i: nat)
    requires 6 <= i < 9
    ensures Step(Passes(i), Overtaken()[i]) == Passes(i + 1)
  {
    var s := Step(Passes(i), Overtaken()[i]);
    assert s.locks == Passes(i + 1).locks;
    assert s.registered == Passes(i + 1).registered;
    assert s.entries == Passes(i + 1).entries;
  }

  lemma StorePasses(i: nat)
    requires 9 <= i < 12
    ensures Step(Passes(i), Overtaken()[i]) == Passes(i + 1)
  {
    var s := Step(Passes(i), Overtaken()[i]);
    assert s.locks == Passes(i + 1).locks;
    assert s.registered == Passes(i + 1).registered;
    assert s.entries == Passes(i + 1).entries;
  }

  lemma LoadPasses(i: nat)
    requires 12 <= i < 16
    ensures Step(Passes(i), Overtaken()[i]) == Passes(i + 1)
  {
    var s := Step(Passes(i), Overtaken()[i]);
    assert s.locks == Passes(i + 1).locks;
    assert s.registered == Passes(i + 1).registered;
    assert s.entries == Passes(i + 1).entries;
  }

  lemma PassesStep(i: nat)
    requires i < 16
    ensures Step(Passes(i), Overtaken()[i]) == Passes(i + 1)
  {
    hide Step, Passes, Overtaken;
    if i < 6 {
      WriterPasses(i);
    } else if i < 9 {
      GetterPasses(i);
    } else if i < 12 {
      StorePasses(i);
    } else {
      LoadPasses(i);
    }
  }

  lemma {:induction false} PassesRun(i: nat)
    requires i <= 16
    ensures Run(New(), Overtaken()[..i]) == Passes(i)
  {
    OvertakenFacts();
    hide Overtaken, Step, Passes;
    var a := Overtaken();
    if i == 0 {
      PassesFrom();
    } else {
      PassesRun(i - 1);
      PassesStep(i - 1);
      assert a[..i] == a[..i - 1] + [a[i - 1]];
      RunSplit(New(), a[..i - 1], [a[i - 1]]);
    }
  }

  lemma PassesFrom()
    ensures Passes(0) == New()
  {
  }

  /**
    Here the writer takes its cancelling step while no load is registered, a load registers, the writer
    stores, and the loaded value replaces what it stored.
  */
  lemma CancelledTooEarly()
    ensures var s := Run(New(), Overtaken()[..5]);
      |s.writers| == 1 && s.writers[0] == Writer(0, Put(2), WDelete) && s.calls == [] && Overtaken()[5] == GoWriter(0)
    ensures var s := Run(New(), Overtaken()[..10]);
      |s.calls| == 1 && UnderWay(s.calls[0].pc) && 0 in s.entries && s.entries[0] == 2
    ensures var s := Run(New(), Overtaken());
      && |s.writers| == 1 && s.writers[0] == Writer(0, Put(2), WDone)
      && |s.calls| == 1 && s.calls[0].applied && 0 in s.entries && s.entries[0] == 1
  {
    OvertakenFacts();
    hide Run, Step, Overtaken, Passes;
    PassesFacts();
    PassesRun(5);
    PassesRun(10);
    PassesRun(16);
    assert Overtaken()[..16] == Overtaken();
  }

  lemma OvertakenFacts()
    ensures |Overtaken()| == 16 && Overtaken()[5] == GoWriter(0)
  {
  }

  lemma PassesFacts()
    ensures var s := Passes(5); |s.writers| == 1 && s.writers[0] == Writer(0, Put(2), WDelete) && s.calls == []
    ensures var s := Passes(10); |s.calls| == 1 && UnderWay(s.calls[0].pc) && 0 in s.entries && s.entries[0] == 2
    ensures var s := Passes(16);
      && |s.writers| == 1 && s.writers[0] == Writer(0, Put(2), WDone)
      && |s.calls| == 1 && s.calls[0].applied && 0 in s.entries && s.entries[0] == 1
  {
  }
}
