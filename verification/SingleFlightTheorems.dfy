/** What loads and writes do to the entries, over every run: who changed them, when, and to what. */
module SingleFlightTheorems {
  import opened SingleFlight
  import opened SingleFlightSafety

  // ---------- The moments of a run ----------

  /** The state before action i. */
  function At(actions: seq<Action>, i: nat): State
    requires i <= |actions|
  {
    Run(New(), actions[..i])
  }

  lemma Next(actions: seq<Action>, i: nat)
    requires i < |actions|
    ensures At(actions, i + 1) == Step(At(actions, i), actions[i])
  {
    hide Step;
    assert actions[..i + 1] == actions[..i] + [actions[i]];
    RunSplit(New(), actions[..i], [actions[i]]);
    assert Run(At(actions, i), [actions[i]]) == Step(At(actions, i), actions[i]);
  }

  lemma Front(actions: seq<Action>, i: nat)
    requires i < |actions|
    ensures At(actions[..|actions| - 1], i) == At(actions, i)
  {
    assert actions[..|actions| - 1][..i] == actions[..i];
  }

  lemma Sound(actions: seq<Action>, i: nat)
    requires i <= |actions|
    ensures Inv(At(actions, i))
  {
    InitOk();
    RunOk(New(), actions[..i]);
  }

  // ---------- One step ----------

  /** The entries once a loader's outcome has been dealt with. */
  function Loaded(entries: map<nat, nat>, key: nat, o: Outcome): map<nat, nat> {
    match o
    case Value(v) => entries[key := v]
    case NotFound => entries - {key}
    case _ => entries
  }

  /** The entries once a writer has stored. */
  function Written(entries: map<nat, nat>, key: nat, op: WriteOp): map<nat, nat> {
    match op
    case Put(v) => entries[key := v]
    case Drop => entries - {key}
    case Keep => entries
  }

  predicate AtStore(s: State, w: nat) {
    w < |s.writers| && s.writers[w].pc.WStore?
  }

  predicate AtDecision(s: State, c: nat) {
    c < |s.calls| && s.calls[c].pc.Deciding?
  }

  /** Nothing was written or removed behind the call's back. */
  predicate Uncancelled(me: Call) {
    me.fake || !me.doomed
  }

  /** The entries change only when a writer stores, or when a call decides that nobody has cancelled. */
  lemma EntriesStep(s: State, x: Action)
    requires Inv(s)
    ensures x.GoWriter? && AtStore(s, x.w) ==> Step(s, x).entries == Written(s.entries, s.writers[x.w].key, s.writers[x.w].op)
    ensures x.GoCall? && AtDecision(s, x.c) ==>
      var me := s.calls[x.c];
      Step(s, x).entries == if Uncancelled(me) then Loaded(s.entries, me.key, me.outcome) else s.entries
    ensures !(x.GoWriter? && AtStore(s, x.w)) && !(x.GoCall? && AtDecision(s, x.c)) ==> Step(s, x).entries == s.entries
  {
    hide Inv, Doom, CallOk;
    if x.GoCall? && AtDecision(s, x.c) {
      CallAt(s, x.c);
    }
  }

  lemma CallAt(s: State, c: nat)
    requires Inv(s) && c < |s.calls|
    ensures CallOk(s.calls[c], c, s.initialized, s.registered, s.locks)
    ensures s.calls[c].pc.Deciding? ==> (s.calls[c].pc.correct <==> Uncancelled(s.calls[c]))
  {
  }

  /** A call keeps its key and its kind; once loaded it keeps its outcome, once through it stays through, and nobody cancels it any more. */
  predicate CallLater(a: Call, b: Call) {
    && a.key == b.key && a.fake == b.fake
    && (!a.pc.Loading? ==> b.outcome == a.outcome && !b.pc.Loading?)
    && (a.doomed ==> b.doomed)
    && (Decided(a.pc) ==> Decided(b.pc) && b.doomed == a.doomed)
  }

  lemma CallsStep(s: State, x: Action, c: nat)
    requires c < |s.calls|
    ensures c < |Step(s, x).calls| && CallLater(s.calls[c], Step(s, x).calls[c])
    ensures !(x.GoCall? && x.c == c) ==> Step(s, x).calls[c] == s.calls[c] || Step(s, x).calls[c] == s.calls[c].(doomed := true)
    ensures x.GoCall? && x.c == c ==> Step(s, x).calls[c].doomed == s.calls[c].doomed
    ensures x.GoCall? && x.c == c && s.calls[c].pc.Deciding? ==> Decided(Step(s, x).calls[c].pc)
    ensures x.GoCall? && x.c == c && !s.calls[c].pc.Deciding? ==> (Decided(Step(s, x).calls[c].pc) <==> Decided(s.calls[c].pc))
  {
    hide Doom;
    match x
    case GoGetter(g) => if g < |s.getters| { CallsByGetter(s, g, c); }
    case GoWriter(w) => if w < |s.writers| { CallsByWriter(s, w, c); }
    case GoCall(d, loaded) => if d < |s.calls| { CallsByCall(s, d, loaded, c); }
    case _ =>
  }

  lemma CallsByGetter(s: State, g: nat, c: nat)
    requires c < |s.calls| && g < |s.getters|
    ensures c < |GetterStep(s, g).calls| && GetterStep(s, g).calls[c] == s.calls[c]
  {
  }

  lemma CallsByWriter(s: State, w: nat, c: nat)
    requires c < |s.calls| && w < |s.writers|
    ensures c < |WriterStep(s, w).calls|
    ensures WriterStep(s, w).calls[c] ==
      if s.writers[w].pc.WDelete? && Ongoing(s, c, s.writers[w].key) then s.calls[c].(doomed := true) else s.calls[c]
  {
  }

  lemma CallsByCall(s: State, d: nat, loaded: Outcome, c: nat)
    requires c < |s.calls| && d < |s.calls|
    ensures c < |CallStep(s, d, loaded).calls| && CallLater(s.calls[c], CallStep(s, d, loaded).calls[c])
    ensures d != c ==> CallStep(s, d, loaded).calls[c] == s.calls[c]
    ensures CallStep(s, d, loaded).calls[c].doomed == s.calls[c].doomed
    ensures d == c && s.calls[c].pc.Deciding? ==> Decided(CallStep(s, d, loaded).calls[c].pc)
    ensures d == c && !s.calls[c].pc.Deciding? ==> (Decided(CallStep(s, d, loaded).calls[c].pc) <==> Decided(s.calls[c].pc))
  {
    hide CallStep, CallLater, Decided;
    OthersKept(s, d, loaded);
    if d == c {
      OwnStep(s, c, loaded);
    } else {
      SameLater(s.calls[c]);
    }
  }

  lemma OthersKept(s: State, d: nat, loaded: Outcome)
    requires d < |s.calls|
    ensures |CallStep(s, d, loaded).calls| == |s.calls|
    ensures CallStep(s, d, loaded).calls == s.calls[d := CallStep(s, d, loaded).calls[d]]
  {
  }

  lemma SameLater(me: Call)
    ensures CallLater(me, me)
  {
  }

  lemma OwnStep(s: State, c: nat, loaded: Outcome)
    requires c < |s.calls|
    ensures |CallStep(s, c, loaded).calls| == |s.calls|
    ensures OneStep(s.calls[c], CallStep(s, c, loaded).calls[c])
  {
    hide CallLater, Decided, OneStep, CallStep;
    var me := s.calls[c];
    if me.pc.Loading? || me.pc.Finishing? || me.pc.Over? {
      EarlyStep(s, c, loaded);
    } else if me.pc.Checking? || me.pc.Removing? {
      LookStep(s, c, loaded);
    } else if me.pc.Deciding? {
      DecideStep(s, c, loaded);
    } else {
      LateStep(s, c, loaded);
    }
  }

  predicate OneStep(me: Call, next: Call) {
    && CallLater(me, next) && next.doomed == me.doomed
    && (me.pc.Deciding? ==> Decided(next.pc))
    && (!me.pc.Deciding? ==> (Decided(next.pc) <==> Decided(me.pc)))
  }

  lemma EarlyStep(s: State, c: nat, loaded: Outcome)
    requires c < |s.calls| && (s.calls[c].pc.Loading? || s.calls[c].pc.Finishing? || s.calls[c].pc.Over?)
    ensures |CallStep(s, c, loaded).calls| == |s.calls| && OneStep(s.calls[c], CallStep(s, c, loaded).calls[c])
  {
  }

  lemma LookStep(s: State, c: nat, loaded: Outcome)
    requires c < |s.calls| && (s.calls[c].pc.Checking? || s.calls[c].pc.Removing?)
    ensures |CallStep(s, c, loaded).calls| == |s.calls| && OneStep(s.calls[c], CallStep(s, c, loaded).calls[c])
  {
  }

  lemma DecideStep(s: State, c: nat, loaded: Outcome)
    requires c < |s.calls| && s.calls[c].pc.Deciding?
    ensures |CallStep(s, c, loaded).calls| == |s.calls| && OneStep(s.calls[c], CallStep(s, c, loaded).calls[c])
  {
  }

  lemma LateStep(s: State, c: nat, loaded: Outcome)
    requires c < |s.calls| && (s.calls[c].pc.Unlocking? || s.calls[c].pc.Cancelling?)
    ensures |CallStep(s, c, loaded).calls| == |s.calls| && OneStep(s.calls[c], CallStep(s, c, loaded).calls[c])
  {
  }

  // ---------- Calls ----------

  predicate StepOf(x: Action, c: nat) {
    x.GoCall? && x.c == c
  }

  /** Action i leaves the entries alone. */
  ghost predicate Quiet(actions: seq<Action>, i: nat)
    requires i < |actions|
  {
    At(actions, i + 1).entries == At(actions, i).entries
  }

  /** At action i the call deals with its outcome: it changes the entries at its key accordingly, or, if it was cancelled, not at all. */
  ghost predicate DealtWithAt(actions: seq<Action>, me: Call, c: nat, i: nat) {
    && i < |actions| && StepOf(actions[i], c)
    && At(actions, i + 1).entries == if Uncancelled(me) then Loaded(At(actions, i).entries, me.key, me.outcome) else At(actions, i).entries
  }

  /** No step of call c but action i changed the entries. */
  ghost predicate OnlyAt(actions: seq<Action>, c: nat, i: int) {
    forall j :: 0 <= j < |actions| && StepOf(actions[j], c) && j != i ==> Quiet(actions, j)
  }

  /** Of the steps of call c, only the one at which it dealt with its outcome can have changed the entries. */
  ghost predicate CallHistory(actions: seq<Action>, c: nat) {
    var s := At(actions, |actions|);
    if c < |s.calls| && Decided(s.calls[c].pc)
    then exists i: nat :: DealtWithAt(actions, s.calls[c], c, i) && OnlyAt(actions, c, i)
    else OnlyAt(actions, c, -1)
  }

  /**
    Over every run: a call that is through has dealt with its outcome in exactly one step, which stored or
    removed what it loaded if no writer had cancelled it, and none of its other steps changed the entries.
  */
  lemma {:induction false} CallEffect(actions: seq<Action>, c: nat)
    ensures CallHistory(actions, c)
    decreases |actions|
  {
    hide Step, Inv, Run;
    if actions != [] {
      var n := |actions| - 1;
      var front := actions[..n];
      CallEffect(front, c);
      Fronts(actions);
      Next(actions, n);
      Sound(actions, n);
      var s, x := At(actions, n), actions[n];
      EntriesStep(s, x);
      if c < |s.calls| {
        CallsStep(s, x, c);
        if Decided(s.calls[c].pc) {
          var i: nat :| DealtWithAt(front, s.calls[c], c, i) && OnlyAt(front, c, i);
          assert DealtWithAt(actions, Step(s, x).calls[c], c, i) && OnlyAt(actions, c, i);
        } else if Decided(Step(s, x).calls[c].pc) {
          assert DealtWithAt(actions, Step(s, x).calls[c], c, n) && OnlyAt(actions, c, n);
        }
      } else if c < |Step(s, x).calls| {
        NewCall(s, x, c);
      }
    } else {
      NoCalls();
    }
  }

  lemma Fronts(actions: seq<Action>)
    requires actions != []
    ensures forall i :: 0 <= i < |actions| ==> At(actions[..|actions| - 1], i) == At(actions, i)
  {
    hide Run;
    forall i | 0 <= i < |actions| ensures At(actions[..|actions| - 1], i) == At(actions, i) {
      Front(actions, i);
    }
  }

  lemma NoCalls()
    ensures Run(New(), []) == New() && New().calls == [] && New().writers == [] && New().getters == []
  {
  }

  lemma NewCall(s: State, x: Action, c: nat)
    requires c >= |s.calls| && c < |Step(s, x).calls|
    ensures !Decided(Step(s, x).calls[c].pc) && !Step(s, x).calls[c].doomed
  {
    hide CallStep, WriterStep;
    match x
    case GoWriter(w) => if w < |s.writers| { CallCount(s, w); }
    case GoCall(d, loaded) => if d < |s.calls| { OthersKept(s, d, loaded); }
    case _ =>
  }

  lemma CallCount(s: State, w: nat)
    requires w < |s.writers|
    ensures |WriterStep(s, w).calls| == |s.calls|
  {
    hide Doom;
  }

  // ---------- Cancelling ----------

  /** At action i a writer takes its cancelling step for the key of call c while c is under way. */
  ghost predicate CancelledAt(actions: seq<Action>, c: nat, i: nat) {
    && i < |actions| && actions[i].GoWriter?
    && var s := At(actions, i); var w := actions[i].w;
    w < |s.writers| && s.writers[w].pc.WDelete? && Ongoing(s, c, s.writers[w].key)
  }

  ghost predicate WasCancelled(actions: seq<Action>, c: nat) {
    exists i :: CancelledAt(actions, c, i)
  }

  /** A call counts as cancelled exactly if a writer's cancelling step met it under way. */
  lemma {:induction false} DoomedExactly(actions: seq<Action>, c: nat)
    requires c < |At(actions, |actions|).calls|
    ensures At(actions, |actions|).calls[c].doomed <==> WasCancelled(actions, c)
    decreases |actions|
  {
    hide Step, Inv, Run;
    if actions == [] {
      NoCalls();
    } else {
      var n := |actions| - 1;
      var front := actions[..n];
      Fronts(actions);
      Next(actions, n);
      var s := At(actions, n);
      assert forall i: nat :: CancelledAt(front, c, i) <==> CancelledAt(actions, c, i) && i < n;
      if c < |s.calls| {
        DoomedExactly(front, c);
        DoomedNow(s, actions[n], c);
        assert CancelledAt(actions, c, n) <==> Cancels(s, actions[n], c);
      } else {
        NewCall(s, actions[n], c);
        forall i | CancelledAt(actions, c, i) ensures false {
          FewerCalls(actions, i, n);
        }
      }
    }
  }

  predicate Cancels(s: State, x: Action, c: nat) {
    x.GoWriter? && x.w < |s.writers| && s.writers[x.w].pc.WDelete? && Ongoing(s, c, s.writers[x.w].key)
  }

  lemma DoomedNow(s: State, x: Action, c: nat)
    requires c < |s.calls|
    ensures c < |Step(s, x).calls|
    ensures Step(s, x).calls[c].doomed <==> s.calls[c].doomed || Cancels(s, x, c)
  {
    hide Doom, GetterStep, WriterStep, CallStep;
    match x
    case GoGetter(g) => if g < |s.getters| { CallsByGetter(s, g, c); }
    case GoWriter(w) => if w < |s.writers| { CallsByWriter(s, w, c); }
    case GoCall(d, loaded) => if d < |s.calls| { CallsByCall(s, d, loaded, c); }
    case _ =>
  }

  lemma {:induction false} FewerCalls(actions: seq<Action>, i: nat, n: nat)
    requires i <= n <= |actions|
    ensures |At(actions, i).calls| <= |At(actions, n).calls|
  {
    hide Step, Run;
    if i < n {
      FewerCalls(actions, i, n - 1);
      Next(actions, n - 1);
      var s := At(actions, n - 1);
      if |s.calls| > 0 {
        CallsStep(s, actions[n - 1], |s.calls| - 1);
      }
    }
  }

  ghost predicate LoadedAt(actions: seq<Action>, me: Call, c: nat, i: nat) {
    && i < |actions| && StepOf(actions[i], c)
    && At(actions, i + 1).entries == Loaded(At(actions, i).entries, me.key, me.outcome)
  }

  /**
    No stale load, on the entries: a real call that is through changed the entry, in exactly one step, to what
    it loaded, if no writer's cancelling step for its key came while it was under way. If one did, no step of
    the call ever changed anything.
  */
  lemma LoadedExactly(actions: seq<Action>, c: nat)
    requires var s := At(actions, |actions|); c < |s.calls| && !s.calls[c].fake && Decided(s.calls[c].pc)
    ensures var me := At(actions, |actions|).calls[c];
      && (WasCancelled(actions, c) ==> OnlyAt(actions, c, -1))
      && (!WasCancelled(actions, c) ==> exists i: nat :: LoadedAt(actions, me, c, i) && OnlyAt(actions, c, i))
  {
    hide Run;
    CallEffect(actions, c);
    DoomedExactly(actions, c);
    var me := At(actions, |actions|).calls[c];
    var i: nat :| DealtWithAt(actions, me, c, i) && OnlyAt(actions, c, i);
    assert !me.doomed ==> LoadedAt(actions, me, c, i);
    assert me.doomed ==> Quiet(actions, i);
  }

  // ---------- Writers ----------

  predicate Past(pc: WriterPc) {
    pc.WUnlock? || pc.WDone?
  }

  lemma WritersStep(s: State, x: Action, w: nat)
    requires w < |s.writers|
    ensures w < |Step(s, x).writers| && Step(s, x).writers[w].key == s.writers[w].key && Step(s, x).writers[w].op == s.writers[w].op
    ensures x != GoWriter(w) ==> Step(s, x).writers[w] == s.writers[w]
    ensures x == GoWriter(w) ==> (Past(Step(s, x).writers[w].pc) <==> Past(s.writers[w].pc) || s.writers[w].pc.WStore?)
  {
    hide GetterStep, CallStep, WriterStep;
    match x
    case GoGetter(g) => if g < |s.getters| { WritersByGetter(s, g); }
    case GoWriter(v) => if v < |s.writers| { WritersByWriter(s, v); }
    case GoCall(d, loaded) => if d < |s.calls| { WritersByCall(s, d, loaded); }
    case _ =>
  }

  lemma WritersByGetter(s: State, g: nat)
    requires g < |s.getters|
    ensures GetterStep(s, g).writers == s.writers
  {
  }

  lemma WritersByCall(s: State, d: nat, loaded: Outcome)
    requires d < |s.calls|
    ensures CallStep(s, d, loaded).writers == s.writers && CallStep(s, d, loaded).getters == s.getters
  {
  }

  lemma WritersByWriter(s: State, v: nat)
    requires v < |s.writers|
    ensures |WriterStep(s, v).writers| == |s.writers| && WriterStep(s, v).getters == s.getters
    ensures var me, next := s.writers[v], WriterStep(s, v).writers[v];
      && WriterStep(s, v).writers == s.writers[v := next] && next.key == me.key && next.op == me.op
      && (Past(next.pc) <==> Past(me.pc) || me.pc.WStore?)
  {
    hide Doom;
  }

  lemma NewWriter(s: State, x: Action, w: nat)
    requires w >= |s.writers| && w < |Step(s, x).writers|
    ensures !Past(Step(s, x).writers[w].pc)
  {
    hide GetterStep, CallStep, WriterStep;
    match x
    case GoGetter(g) => if g < |s.getters| { WritersByGetter(s, g); }
    case GoWriter(v) => if v < |s.writers| { WritersByWriter(s, v); }
    case GoCall(d, loaded) => if d < |s.calls| { WritersByCall(s, d, loaded); }
    case _ =>
  }

  ghost predicate WrittenAt(actions: seq<Action>, me: Writer, w: nat, i: nat) {
    && i < |actions| && actions[i] == GoWriter(w)
    && At(actions, i + 1).entries == Written(At(actions, i).entries, me.key, me.op)
  }

  ghost predicate OnlyStoreAt(actions: seq<Action>, w: nat, i: int) {
    forall j :: 0 <= j < |actions| && actions[j] == GoWriter(w) && j != i ==> Quiet(actions, j)
  }

  ghost predicate WriterHistory(actions: seq<Action>, w: nat) {
    var s := At(actions, |actions|);
    if w < |s.writers| && Past(s.writers[w].pc)
    then exists i: nat :: WrittenAt(actions, s.writers[w], w, i) && OnlyStoreAt(actions, w, i)
    else OnlyStoreAt(actions, w, -1)
  }

  /** Over every run: a writer that is through has put, dropped or kept the entry of its key in exactly one step; no other step of it changed the entries. */
  lemma {:induction false} WriterEffect(actions: seq<Action>, w: nat)
    ensures WriterHistory(actions, w)
    decreases |actions|
  {
    hide Step, Inv, Run;
    if actions != [] {
      var n := |actions| - 1;
      var front := actions[..n];
      WriterEffect(front, w);
      Fronts(actions);
      Next(actions, n);
      Sound(actions, n);
      var s, x := At(actions, n), actions[n];
      EntriesStep(s, x);
      if w < |s.writers| {
        WritersStep(s, x, w);
        if Past(s.writers[w].pc) {
          var i: nat :| WrittenAt(front, s.writers[w], w, i) && OnlyStoreAt(front, w, i);
          assert WrittenAt(actions, Step(s, x).writers[w], w, i) && OnlyStoreAt(actions, w, i);
        } else if Past(Step(s, x).writers[w].pc) {
          assert WrittenAt(actions, Step(s, x).writers[w], w, n) && OnlyStoreAt(actions, w, n);
        }
      } else if w < |Step(s, x).writers| {
        NewWriter(s, x, w);
      }
    } else {
      NoCalls();
    }
  }

  /** Nothing else changes the entries: a step that does is the store of a writer, or of a call that no writer has cancelled. */
  lemma OnlyStores(actions: seq<Action>, i: nat)
    requires i < |actions| && !Quiet(actions, i)
    ensures var s := At(actions, i);
      || (actions[i].GoWriter? && AtStore(s, actions[i].w))
      || (actions[i].GoCall? && AtDecision(s, actions[i].c) && (s.calls[actions[i].c].fake || !WasCancelled(actions[..i], actions[i].c)))
  {
    hide Step, Inv, Run;
    Next(actions, i);
    Sound(actions, i);
    var s := At(actions, i);
    EntriesStep(s, actions[i]);
    if actions[i].GoCall? && AtDecision(s, actions[i].c) && !s.calls[actions[i].c].fake {
      assert actions[..i][..i] == actions[..i];
      DoomedExactly(actions[..i], actions[i].c);
    }
  }

  // ---------- Getters ----------

  /** At action i getter g looked, and found the value, or, for a refresh or a missing entry, decided to load. */
  ghost predicate LookedAt(actions: seq<Action>, me: Getter, g: nat, i: nat) {
    && i < |actions| && actions[i] == GoGetter(g)
    && var entries := At(actions, i).entries;
    if me.pc.GHit? then !me.refresh && me.key in entries && entries[me.key] == me.pc.v
    else me.refresh || me.key !in entries
  }

  /** Over every run: the value a getter hits is the entry at the moment it looked; one that goes on to a call found none then, or refreshes. */
  lemma {:induction false} HitIsEntry(actions: seq<Action>, g: nat)
    requires var s := At(actions, |actions|); g < |s.getters| && !s.getters[g].pc.GInit? && !s.getters[g].pc.GLook?
    ensures exists i :: LookedAt(actions, At(actions, |actions|).getters[g], g, i)
    decreases |actions|
  {
    hide Step, Inv, Run;
    if actions == [] {
      NoCalls();
    } else {
      var n := |actions| - 1;
      var front := actions[..n];
      Fronts(actions);
      Next(actions, n);
      var s, x := At(actions, n), actions[n];
      GettersStep(s, x, g);
      if g < |s.getters| && !s.getters[g].pc.GInit? && !s.getters[g].pc.GLook? {
        HitIsEntry(front, g);
        var i :| LookedAt(front, s.getters[g], g, i);
        assert LookedAt(actions, Step(s, x).getters[g], g, i);
      } else {
        assert LookedAt(actions, Step(s, x).getters[g], g, n);
      }
    }
  }

  lemma GettersStep(s: State, x: Action, g: nat)
    requires g < |Step(s, x).getters|
    ensures if g < |s.getters| then GetterLater(s.getters[g], Step(s, x).getters[g], s.entries, x == GoGetter(g)) else Step(s, x).getters[g].pc.GInit?
  {
    hide GetterStep, CallStep, WriterStep, GetterLater;
    if g < |s.getters| {
      SameGetter(s.getters[g], s.entries);
    }
    match x
    case GoGetter(h) => if h < |s.getters| { GettersByGetter(s, h, g); }
    case GoWriter(v) => if v < |s.writers| { WritersByWriter(s, v); }
    case GoCall(d, loaded) => if d < |s.calls| { WritersByCall(s, d, loaded); }
    case _ =>
  }

  /** A getter looks once, at the entries as they are then. */
  predicate GetterLater(a: Getter, b: Getter, entries: map<nat, nat>, own: bool) {
    && b.key == a.key && b.refresh == a.refresh
    && (!own ==> b == a)
    && (a.pc.GInit? ==> b.pc.GInit? || b.pc.GLook?)
    && (a.pc.GLook? && own ==> if b.key in entries && !b.refresh then b.pc == GHit(entries[b.key]) else b.pc.GFast?)
    && (!a.pc.GInit? && !a.pc.GLook? ==>
          if a.pc.GHit? then b.pc == a.pc else !b.pc.GHit? && !b.pc.GInit? && !b.pc.GLook?)
  }

  lemma SameGetter(me: Getter, entries: map<nat, nat>)
    ensures GetterLater(me, me, entries, false)
  {
  }

  lemma GettersByGetter(s: State, h: nat, g: nat)
    requires h < |s.getters|
    ensures |GetterStep(s, h).getters| == |s.getters|
    ensures g < |s.getters| ==> GetterLater(s.getters[g], GetterStep(s, h).getters[g], s.entries, h == g)
  {
    hide GetterStep, GetterLater;
    OtherGetters(s, h);
    if g == h {
      OwnGetter(s, h);
    } else if g < |s.getters| {
      SameGetter(s.getters[g], s.entries);
    }
  }

  lemma OtherGetters(s: State, h: nat)
    requires h < |s.getters|
    ensures |GetterStep(s, h).getters| == |s.getters| && GetterStep(s, h).getters == s.getters[h := GetterStep(s, h).getters[h]]
  {
  }

  lemma OwnGetter(s: State, h: nat)
    requires h < |s.getters|
    ensures h < |GetterStep(s, h).getters| && GetterLater(s.getters[h], GetterStep(s, h).getters[h], s.entries, true)
  {
  }

  // ---------- One at a time ----------

  /** The same action, n times. */
  function Do(s: State, x: Action, n: nat): State
    decreases n
  {
    if n == 0 then s else Do(Step(s, x), x, n - 1)
  }

  /** A get and the load it starts, with nobody else about. */
  function GetAlone(s: State, key: nat, o: Outcome): State {
    var asked := Do(Step(s, BeginGet(key, false)), GoGetter(|s.getters|), 4);
    Do(Do(Step(asked, GoCall(|s.calls|, o)), GoCall(|s.calls|, Pending), 6), GoGetter(|s.getters|), 1)
  }

  lemma AskAlone(s: State, key: nat)
    requires key !in s.entries && key !in s.registered
    ensures Do(Step(s, BeginGet(key, false)), GoGetter(|s.getters|), 4) ==
      s.(initialized := true, registered := s.registered[key := |s.calls|],
         calls := s.calls + [Call(key, false, Pending, Loading, false, false, 0)],
         getters := s.getters + [Getter(key, false, GWait(|s.calls|))])
  {
    var g := |s.getters|;
    var s1 := Step(s, BeginGet(key, false));
    var s2 := Step(s1, GoGetter(g));
    assert s2 == s.(initialized := true, getters := s.getters + [Getter(key, false, GLook)]);
    var s3 := Step(s2, GoGetter(g));
    assert s3 == s.(initialized := true, getters := s.getters + [Getter(key, false, GFast)]);
    var s4 := Step(s3, GoGetter(g));
    assert s4 == s.(initialized := true, getters := s.getters + [Getter(key, false, GStart)]);
    var s5 := Step(s4, GoGetter(g));
    assert Do(s1, GoGetter(g), 4) == Do(s2, GoGetter(g), 3) == Do(s3, GoGetter(g), 2) == Do(s4, GoGetter(g), 1) == s5;
  }

  /** A registered call, the last one, from its outcome to the release of its waiters. */
  lemma LoadAlone(s: State, before: seq<Call>, key: nat, o: Outcome)
    requires s.calls == before + [Call(key, false, Pending, Loading, false, false, 0)] && IsRegistered(s.registered, key, |before|)
    requires key !in s.locks && !o.Pending?
    ensures Do(Step(s, GoCall(|before|, o)), GoCall(|before|, Pending), 6) ==
      s.(entries := Loaded(s.entries, key, o), registered := s.registered - {key},
         calls := before + [Call(key, false, o, Over, false, Effective(o), 1)])
  {
    hide Do;
    var c := |before|;
    var go := GoCall(c, Pending);
    var s1 := Step(s, GoCall(c, o));
    assert s1 == s.(calls := before + [Call(key, false, o, Finishing, false, false, 0)]);
    var s2 := Step(s1, go);
    assert s2 == s.(locks := s.locks[key := ByCall(c)], calls := before + [Call(key, false, o, Checking, false, false, 0)]);
    var s3 := Step(s2, go);
    assert s3 == s.(locks := s.locks[key := ByCall(c)], calls := before + [Call(key, false, o, Removing, false, false, 0)]);
    LoadEnd(s, s3, before, key, o);
    SixTimes(s1, go);
  }

  lemma LoadEnd(s: State, s3: State, before: seq<Call>, key: nat, o: Outcome)
    requires key !in s.locks && !o.Pending? && IsRegistered(s.registered, key, |before|)
    requires s3 == s.(locks := s.locks[key := ByCall(|before|)], calls := before + [Call(key, false, o, Removing, false, false, 0)])
    ensures var go := GoCall(|before|, Pending);
      Step(Step(Step(Step(s3, go), go), go), go) ==
        s.(entries := Loaded(s.entries, key, o), registered := s.registered - {key}, calls := before + [Call(key, false, o, Over, false, Effective(o), 1)])
  {
    var go := GoCall(|before|, Pending);
    var s4 := Step(s3, go);
    assert s4 == s3.(registered := s.registered - {key}, calls := before + [Call(key, false, o, Deciding(true), false, false, 0)]);
    var s5 := Step(s4, go);
    assert s5 == s4.(entries := Loaded(s.entries, key, o), calls := before + [Call(key, false, o, Unlocking, false, Effective(o), 0)]);
    var s6 := Step(s5, go);
    assert s6.locks == s.locks;
    assert s6 == s5.(locks := s.locks, calls := before + [Call(key, false, o, Cancelling, false, Effective(o), 0)]);
  }

  lemma SixTimes(s: State, x: Action)
    ensures Do(s, x, 6) == Step(Step(Step(Step(Step(Step(s, x), x), x), x), x), x)
  {
    hide Step;
    DoOne(s, x, 6);
    DoOne(Step(s, x), x, 5);
    DoOne(Step(Step(s, x), x), x, 4);
    DoOne(Step(Step(Step(s, x), x), x), x, 3);
    DoOne(Step(Step(Step(Step(s, x), x), x), x), x, 2);
    DoOne(Step(Step(Step(Step(Step(s, x), x), x), x), x), x, 1);
  }

  lemma DoOne(s: State, x: Action, n: nat)
    requires n > 0
    ensures Do(s, x, n) == Do(Step(s, x), x, n - 1)
    ensures Do(s, x, 0) == s
  {
  }

  /** A get of a missing entry stores or removes what the loader answered and hands out the call; the registry and the locks are as before. */
  lemma GetAloneOk(s: State, key: nat, o: Outcome)
    requires Inv(s) && key !in s.entries && key !in s.registered && key !in s.locks && !o.Pending?
    ensures var s' := GetAlone(s, key, o);
      && s'.entries == Loaded(s.entries, key, o) && s'.registered == s.registered && s'.locks == s.locks && s'.writers == s.writers
      && s'.calls == s.calls + [Call(key, false, o, Over, false, Effective(o), 1)]
      && s'.getters == s.getters + [Getter(key, false, GReturned(|s.calls|))]
  {
    hide Inv, CallStep;
    AskAlone(s, key);
    var asked := Do(Step(s, BeginGet(key, false)), GoGetter(|s.getters|), 4);
    LoadAlone(asked, s.calls, key, o);
    var loaded := Do(Step(asked, GoCall(|s.calls|, o)), GoCall(|s.calls|, Pending), 6);
    DoOne(loaded, GoGetter(|s.getters|), 1);
    assert loaded.registered == s.registered;
  }

  /** A write with nobody else about takes its five steps, or four before the call map exists. */
  function WriteAlone(s: State, key: nat, op: WriteOp): State {
    Do(Step(s, BeginWrite(key, op)), GoWriter(|s.writers|), if s.initialized then 5 else 4)
  }

  /** It puts, drops or keeps the entry, cancels the loads of the key that are under way, and gives the lock back. */
  lemma WriteAloneOk(s: State, key: nat, op: WriteOp)
    requires Inv(s) && key !in s.locks
    ensures var s' := WriteAlone(s, key, op);
      && s'.entries == Written(s.entries, key, op) && s'.registered == s.registered - {key} && s'.locks == s.locks
      && s'.writers == s.writers + [Writer(key, op, WDone)] && s'.getters == s.getters
      && |s'.calls| == |s.calls|
      && (forall c :: 0 <= c < |s.calls| ==>
            s'.calls[c] == if Ongoing(s, c, key) then s.calls[c].(doomed := true) else s.calls[c])
  {
    hide CallStep, GetterStep, Inv;
    var w := |s.writers|;
    var go := GoWriter(w);
    var s1 := Step(s, BeginWrite(key, op));
    var s2 := Step(s1, go);
    var locked := s.(locks := s.locks[key := ByWriter(w)]);
    assert s2 == locked.(writers := s.writers + [Writer(key, op, WCheck)]);
    var s3 := Step(s2, go);
    if s.initialized {
      assert s3 == locked.(writers := s.writers + [Writer(key, op, WDelete)]);
      var s4 := Step(s3, go);
      assert s4 == locked.(registered := s.registered - {key}, calls := Doom(s.calls, key), writers := s.writers + [Writer(key, op, WStore)]);
      StoreAlone(s, s4, key, op);
      DoOne(s1, go, 5);
      DoOne(s2, go, 4);
      DoOne(s3, go, 3);
      DoOne(s4, go, 2);
      DoOne(Step(s4, go), go, 1);
    } else {
      assert s3 == locked.(writers := s.writers + [Writer(key, op, WStore)]);
      NotYet(s);
      StoreAlone(s, s3, key, op);
      DoOne(s1, go, 4);
      DoOne(s2, go, 3);
      DoOne(s3, go, 2);
      DoOne(Step(s3, go), go, 1);
    }
  }

  lemma StoreAlone(s: State, s4: State, key: nat, op: WriteOp)
    requires key !in s.locks && s4.locks == s.locks[key := ByWriter(|s.writers|)] && s4.writers == s.writers + [Writer(key, op, WStore)]
    ensures var go := GoWriter(|s.writers|);
      Step(Step(s4, go), go) == s4.(entries := Written(s4.entries, key, op), locks := s.locks, writers := s.writers + [Writer(key, op, WDone)])
  {
    var go := GoWriter(|s.writers|);
    var s5 := Step(s4, go);
    assert s5 == s4.(entries := Written(s4.entries, key, op), writers := s.writers + [Writer(key, op, WUnlock)]);
    assert Step(s5, go).locks == s.locks;
  }

  lemma NotYet(s: State)
    requires Inv(s) && !s.initialized
    ensures s.registered == map[] && forall key, c: nat :: !Ongoing(s, c, key)
  {
    forall c | 0 <= c < |s.calls| ensures s.calls[c].fake {
      assert CallOk(s.calls[c], c, s.initialized, s.registered, s.locks);
    }
    assert forall k :: k in s.registered ==> RegisteredOk(s.registered, s.calls, k);
  }
}
