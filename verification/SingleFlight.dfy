/**
  Single-flight loading: the map of entries, the map of calls under way, and the lock of
  an entry's bucket under which writers cancel calls and calls store what they loaded.
  Any number of getters, writers and calls take one atomic step at a time, in any order.
*/
module SingleFlight {

  /** What a loader produced; a panic counts as a failure. */
  datatype Outcome = Pending | Value(v: nat) | NotFound | Failed

  /** A call from its registration to the release of its waiters. */
  datatype CallPc =
    | Loading
    | Finishing
    | Checking
    | Removing
    | Deciding(correct: bool)
    | Unlocking
    | Cancelling
    | Over

  /**
    `doomed` records that a writer cancelled calls for the key while this one was under
    way, `applied` that the outcome changed the entry, `releases` how often the waiters
    were released.
  */
  datatype Call = Call(key: nat, fake: bool, outcome: Outcome, pc: CallPc, doomed: bool, applied: bool, releases: nat)

  /** What a writer does to the entry; an eviction that finds another node keeps it. */
  datatype WriteOp = Put(v: nat) | Drop | Keep

  datatype WriterPc = WLock | WCheck | WDelete | WStore | WUnlock | WDone
  datatype Writer = Writer(key: nat, op: WriteOp, pc: WriterPc)

  datatype GetterPc =
    | GInit
    | GLook
    | GFast
    | GStart
    | GWait(call: nat)
    | GHit(v: nat)
    | GReturned(call: nat)

  /** A refresh looks for a call although there is an entry. */
  datatype Getter = Getter(key: nat, refresh: bool, pc: GetterPc)

  datatype Holder = ByCall(call: nat) | ByWriter(writer: nat)

  datatype State = State(
    initialized: bool, entries: map<nat, nat>, registered: map<nat, nat>, locks: map<nat, Holder>,
    calls: seq<Call>, writers: seq<Writer>, getters: seq<Getter>)

  datatype Action =
    | BeginGet(key: nat, refresh: bool)
    | BeginWrite(key: nat, op: WriteOp)
    | BeginFake(key: nat, v: nat)
    | GoGetter(g: nat)
    | GoWriter(w: nat)
    | GoCall(c: nat, loaded: Outcome)

  function New(): State {
    State(false, map[], map[], map[], [], [], [])
  }

  /** Get and startCall. */
  function GetterStep(s: State, g: nat): State
    requires g < |s.getters|
  {
    var me := s.getters[g];
    match me.pc
    case GInit => s.(initialized := true, getters := s.getters[g := me.(pc := GLook)])
    case GLook => s.(getters := s.getters[g := me.(pc :=
        if me.key in s.entries && !me.refresh then GHit(s.entries[me.key]) else GFast)])
    case GFast => s.(getters := s.getters[g := me.(pc :=
        if me.key in s.registered then GWait(s.registered[me.key]) else GStart)])
    case GStart =>
      if me.key in s.registered then s.(getters := s.getters[g := me.(pc := GWait(s.registered[me.key]))])
      else s.(calls := s.calls + [Call(me.key, false, Pending, Loading, false, false, 0)],
              registered := s.registered[me.key := |s.calls|],
              getters := s.getters[g := me.(pc := GWait(|s.calls|))])
    case GWait(c) =>
      if c < |s.calls| && s.calls[c].releases > 0 then s.(getters := s.getters[g := me.(pc := GReturned(c))]) else s
    case _ => s
  }

  predicate UnderWay(pc: CallPc) {
    pc.Loading? || pc.Finishing? || pc.Checking? || pc.Removing? || pc.Deciding?
  }

  /** Every real call for the key that is under way is marked. */
  function Doom(calls: seq<Call>, key: nat): (r: seq<Call>)
    ensures |r| == |calls|
    ensures forall c :: 0 <= c < |calls| ==> r[c] == Mark(calls[c], key)
  {
    seq(|calls|, c requires 0 <= c < |calls| => Mark(calls[c], key))
  }

  function Mark(c: Call, key: nat): Call {
    if c.key == key && !c.fake && UnderWay(c.pc) then c.(doomed := true) else c
  }

  /** A write or an eviction, under the lock of the entry's bucket: atomicSet, atomicDelete, deleteNodeFromMap. */
  function WriterStep(s: State, w: nat): State
    requires w < |s.writers|
  {
    var me := s.writers[w];
    match me.pc
    case WLock =>
      if me.key in s.locks then s
      else s.(locks := s.locks[me.key := ByWriter(w)], writers := s.writers[w := me.(pc := WCheck)])
    case WCheck => s.(writers := s.writers[w := me.(pc := if s.initialized then WDelete else WStore)])
    case WDelete => s.(registered := s.registered - {me.key}, calls := Doom(s.calls, me.key),
                       writers := s.writers[w := me.(pc := WStore)])
    case WStore => s.(entries := (match me.op
                                  case Put(v) => s.entries[me.key := v]
                                  case Drop => s.entries - {me.key}
                                  case Keep => s.entries),
                      writers := s.writers[w := me.(pc := WUnlock)])
    case WUnlock => s.(locks := s.locks - {me.key}, writers := s.writers[w := me.(pc := WDone)])
    case WDone => s
  }

  /** The loader, then afterDeleteCall with deleteCall, and the release of the waiters. */
  function CallStep(s: State, c: nat, loaded: Outcome): State
    requires c < |s.calls|
  {
    var me := s.calls[c];
    match me.pc
    case Loading => if loaded.Pending? then s else s.(calls := s.calls[c := me.(outcome := loaded, pc := Finishing)])
    case Finishing =>
      if me.key in s.locks then s
      else s.(locks := s.locks[me.key := ByCall(c)], calls := s.calls[c := me.(pc := Checking)])
    case Checking =>
      s.(calls := s.calls[c := me.(pc :=
        if me.fake then Deciding(true)
        else if me.key in s.registered && s.registered[me.key] == c then Removing
        else Deciding(false))])
    case Removing =>
      // the second look answers yes whenever no call is left afterwards
      if me.key in s.registered && s.registered[me.key] != c then s.(calls := s.calls[c := me.(pc := Deciding(false))])
      else s.(registered := s.registered - {me.key}, calls := s.calls[c := me.(pc := Deciding(true))])
    case Deciding(correct) =>
      if correct && me.outcome.NotFound? then
        s.(entries := s.entries - {me.key}, calls := s.calls[c := me.(pc := Unlocking, applied := true)])
      else if correct && me.outcome.Value? then
        s.(entries := s.entries[me.key := me.outcome.v], calls := s.calls[c := me.(pc := Unlocking, applied := true)])
      else s.(calls := s.calls[c := me.(pc := Unlocking)])
    case Unlocking => s.(locks := s.locks - {me.key}, calls := s.calls[c := me.(pc := Cancelling)])
    case Cancelling => s.(calls := s.calls[c := me.(pc := Over, releases := if me.fake then me.releases else me.releases + 1)])
    case Over => s
  }

  function Step(s: State, x: Action): State {
    match x
    case BeginGet(key, refresh) => s.(getters := s.getters + [Getter(key, refresh, GInit)])
    case BeginWrite(key, op) => s.(writers := s.writers + [Writer(key, op, WLock)])
    case BeginFake(key, v) => s.(calls := s.calls + [Call(key, true, Value(v), Finishing, false, false, 0)])
    case GoGetter(g) => if g < |s.getters| then GetterStep(s, g) else s
    case GoWriter(w) => if w < |s.writers| then WriterStep(s, w) else s
    case GoCall(c, loaded) => if c < |s.calls| then CallStep(s, c, loaded) else s
  }

  function Run(s: State, actions: seq<Action>): State
    decreases |actions|
  {
    if actions == [] then s else Run(Step(s, actions[0]), actions[1..])
  }

  // ---------- What must hold ----------

  predicate CallHolds(pc: CallPc) {
    pc.Checking? || pc.Removing? || pc.Deciding? || pc.Unlocking?
  }

  predicate WriterHolds(pc: WriterPc) {
    pc.WCheck? || pc.WDelete? || pc.WStore? || pc.WUnlock?
  }

  predicate Decided(pc: CallPc) {
    pc.Unlocking? || pc.Cancelling? || pc.Over?
  }

  predicate Effective(o: Outcome) {
    o.Value? || o.NotFound?
  }

  predicate LocksHeld(locks: map<nat, Holder>, key: nat, holder: Holder) {
    key in locks && locks[key] == holder
  }

  predicate IsRegistered(registered: map<nat, nat>, key: nat, c: nat) {
    key in registered && registered[key] == c
  }

  /** What is known of call c in terms of the registry and the locks. */
  predicate CallOk(me: Call, c: nat, initialized: bool, registered: map<nat, nat>, locks: map<nat, Holder>) {
    && (CallHolds(me.pc) ==> LocksHeld(locks, me.key, ByCall(c)))
    && (me.outcome.Pending? <==> me.pc.Loading?)
    && me.releases == (if me.pc.Over? && !me.fake then 1 else 0)
    && (!me.fake ==> initialized)
    && (me.fake ==> !me.doomed && !me.pc.Removing? && !me.pc.Loading?)
    && (!me.fake && (me.pc.Loading? || me.pc.Finishing? || me.pc.Checking? || me.pc.Removing?) ==>
          (IsRegistered(registered, me.key, c) <==> !me.doomed))
    && (!me.fake && me.pc.Removing? ==> !me.doomed)
    && (me.pc.Deciding? ==> (me.pc.correct <==> !me.doomed))
    && (if Decided(me.pc) then me.applied <==> !me.doomed && Effective(me.outcome) else !me.applied)
  }

  predicate WriterOk(me: Writer, w: nat, locks: map<nat, Holder>) {
    WriterHolds(me.pc) ==> LocksHeld(locks, me.key, ByWriter(w))
  }

  predicate GetterOk(me: Getter, initialized: bool, calls: seq<Call>) {
    && (!me.pc.GInit? ==> initialized)
    && (me.pc.GWait? ==> me.pc.call < |calls| && calls[me.pc.call].key == me.key && !calls[me.pc.call].fake)
    && (me.pc.GReturned? ==> me.pc.call < |calls| && calls[me.pc.call].key == me.key && !calls[me.pc.call].fake && calls[me.pc.call].pc.Over?)
  }

  /** What is registered for a key is a real call for that key, not yet taken out. */
  predicate RegisteredOk(registered: map<nat, nat>, calls: seq<Call>, key: nat)
    requires key in registered
  {
    var c := registered[key];
    && c < |calls| && calls[c].key == key && !calls[c].fake
    && (calls[c].pc.Loading? || calls[c].pc.Finishing? || calls[c].pc.Checking? || calls[c].pc.Removing?)
  }

  ghost predicate Inv(s: State) {
    && (forall c :: 0 <= c < |s.calls| ==> CallOk(s.calls[c], c, s.initialized, s.registered, s.locks))
    && (forall w :: 0 <= w < |s.writers| ==> WriterOk(s.writers[w], w, s.locks))
    && (forall g :: 0 <= g < |s.getters| ==> GetterOk(s.getters[g], s.initialized, s.calls))
    && (forall k :: k in s.registered ==> RegisteredOk(s.registered, s.calls, k))
  }
}
