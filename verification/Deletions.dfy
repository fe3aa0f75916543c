/**
  Who hears of a deleted entry: the map of entries, the life cycle of the nodes, the write
  buffer, and the two streams of deletion events, for operations that run one after another.
*/
module Deletions {
  import opened Nodes
  import opened Options

  datatype Cause = Invalidation | Replacement | Overflow | Expiration
  datatype Event = Event(node: nat, cause: Cause)

  /** An entry ever created. */
  datatype Info = Info(key: nat, expiresAt: int64, state: Lifecycle)

  datatype Task = AddTask(n: nat) | UpdateTask(n: nat, prior: nat, cause: Cause) | DeleteTask(n: nat, cause: Cause)

  /** What the function given to Compute answers; Broken stands for a panic and for an operation that is none of the three. */
  datatype ComputeOp = CancelOp | WriteOp | InvalidateOp | Broken

  /** What a load ends with. */
  datatype Loaded = Value | NotFound | Failed

  /** A node that maintenance picks for eviction, and the time it does so at. */
  datatype Victim = Victim(node: nat, now: int64)

  predicate HasExpired(n: Info, now: int64) {
    n.expiresAt <= now
  }

  function GetCause(n: Info, now: int64, cause: Cause): Cause {
    if HasExpired(n, now) then Expiration else cause
  }

  /** What running a task will report. */
  function Reports(t: Task): seq<Event> {
    match t
    case AddTask(n) => []
    case UpdateTask(n, prior, cause) => [Event(prior, cause)]
    case DeleteTask(n, cause) => [Event(n, cause)]
  }

  function Pending(b: seq<Task>): seq<Event> {
    if b == [] then [] else Reports(b[0]) + Pending(b[1..])
  }

  lemma {:induction false} PendingPush(b: seq<Task>, t: Task)
    ensures multiset(Pending(b + [t])) == multiset(Pending(b)) + multiset(Reports(t))
  {
    if b == [] {
      assert b + [t] == [t] && [t][1..] == [];
    } else {
      assert (b + [t])[1..] == b[1..] + [t];
      PendingPush(b[1..], t);
    }
  }

  // ---------- What must hold ----------

  predicate InTable(table: map<nat, nat>, nodes: seq<Info>, x: nat)
    requires x < |nodes|
  {
    nodes[x].key in table && table[nodes[x].key] == x
  }

  /** A node that is alive is in the map; one in the map is alive, or else it was killed where it stood. */
  ghost predicate TableOk(table: map<nat, nat>, nodes: seq<Info>) {
    && (forall k :: k in table ==> table[k] < |nodes| && nodes[table[k]].key == k)
    && (forall x :: 0 <= x < |nodes| && nodes[x].state == Alive ==> InTable(table, nodes, x))
    && (forall x :: 0 <= x < |nodes| && InTable(table, nodes, x) ==> nodes[x].state != Retired)
  }

  predicate Reported(events: seq<Event>, x: nat) {
    exists i :: 0 <= i < |events| && events[i].node == x
  }

  /** Each node that has left the map has exactly one atomic event, one that is in it has none. */
  ghost predicate AtomicOk(atomic: seq<Event>, table: map<nat, nat>, nodes: seq<Info>) {
    && (forall i :: 0 <= i < |atomic| ==> atomic[i].node < |nodes| && !InTable(table, nodes, atomic[i].node))
    && (forall i, j :: 0 <= i < j < |atomic| ==> atomic[i].node != atomic[j].node)
    && (forall x :: 0 <= x < |nodes| && !InTable(table, nodes, x) ==> Reported(atomic, x))
  }

  ghost predicate TasksOk(buffer: seq<Task>, nodes: seq<Info>) {
    forall t :: t in buffer ==> TaskOk(t, nodes)
  }

  /** A task names nodes that exist; what it reports has left the map, unless it updates a node by itself. */
  predicate TaskOk(t: Task, nodes: seq<Info>) {
    && t.n < |nodes|
    && (t.UpdateTask? ==> t.prior <= t.n && (t.prior == t.n || nodes[t.prior].state != Alive))
    && (t.DeleteTask? ==> nodes[t.n].state != Alive)
  }

  /** The task of a SetIfAbsent that made its entry expire. */
  predicate ByItself(t: Task) {
    t.UpdateTask? && t.prior == t.n
  }

  /**
    Every atomic event is reported again, with the same cause, exactly once: already, by a task still waiting,
    or as part of `owed`; `spurious` is reported beyond that, about nodes that have not left.
  */
  ghost predicate Balanced(atomic: seq<Event>, spurious: multiset<Event>, deletions: seq<Event>, buffer: seq<Task>, owed: multiset<Event>) {
    multiset(atomic) + spurious == multiset(deletions) + multiset(Pending(buffer)) + owed
  }

  /** Nobody has updated a node by itself or is about to: the map holds exactly the nodes that are alive. */
  ghost predicate Untouched(spurious: multiset<Event>, buffer: seq<Task>, table: map<nat, nat>, nodes: seq<Info>) {
    && spurious == multiset{}
    && (forall t :: t in buffer ==> !ByItself(t))
    && (forall k :: k in table ==> table[k] < |nodes| && nodes[table[k]].state == Alive)
  }

  lemma OwedOnceMore(atomic: seq<Event>, spurious: multiset<Event>, deletions: seq<Event>, buffer: seq<Task>, owed: multiset<Event>, e: Event)
    requires Balanced(atomic, spurious, deletions, buffer, owed)
    ensures Balanced(atomic + [e], spurious, deletions, buffer, owed + multiset{e})
    ensures Balanced(atomic, spurious + multiset{e}, deletions, buffer, owed + multiset{e})
  {
    assert multiset(atomic) + multiset{e} + spurious == multiset(atomic) + spurious + multiset{e};
  }

  function Rank(l: Lifecycle): nat {
    match l case Alive => 0 case Retired => 1 case Dead => 2
  }

  /** Life cycles only move forward. */
  predicate Advances(a: seq<Info>, b: seq<Info>) {
    |a| <= |b| && forall x :: 0 <= x < |a| ==> Later(a[x], b[x])
  }

  predicate Later(a: Info, b: Info) {
    a.key == b.key && Rank(a.state) <= Rank(b.state)
  }

  /** A moment of a run, as far as later ones refer to it. */
  datatype Past = Past(table: map<nat, nat>, nodes: seq<Info>, atomic: seq<Event>, deletions: seq<Event>, spurious: multiset<Event>)

  /** From one moment to a later one: life cycles move forward, listeners only hear more, what was wrong stays wrong, and no node comes back to the map. */
  ghost predicate Since(p: Past, q: Past) {
    && Advances(p.nodes, q.nodes) && p.atomic <= q.atomic && p.deletions <= q.deletions && p.spurious <= q.spurious
    && forall x :: 0 <= x < |p.nodes| && InTable(q.table, q.nodes, x) ==> InTable(p.table, p.nodes, x)
  }

  lemma SinceTransitive(p: Past, q: Past, r: Past)
    requires Since(p, q) && Since(q, r)
    ensures Since(p, r)
  {
    forall x | 0 <= x < |p.nodes| ensures Later(p.nodes[x], r.nodes[x]) {
      assert Later(p.nodes[x], q.nodes[x]) && Later(q.nodes[x], r.nodes[x]);
    }
  }

  lemma SinceSelf(p: Past)
    ensures Since(p, p)
  {
  }

  lemma StaysDead(p: Past, q: Past, x: nat)
    requires Since(p, q) && x < |p.nodes| && p.nodes[x].state == Dead
    ensures q.nodes[x].state == Dead
  {
    assert Later(p.nodes[x], q.nodes[x]);
  }

  // ---------- Steps on values ----------

  /** The nodes when x leaves the map: one that is alive is retired. */
  function Retiring(nodes: seq<Info>, x: nat): (r: seq<Info>)
    requires x < |nodes|
    ensures |r| == |nodes| && r[x].state != Alive
  {
    nodes[x := nodes[x].(state := if nodes[x].state == Alive then Retired else nodes[x].state)]
  }

  /** The node leaves the map for good, with an atomic event. */
  lemma LeaveOk(table: map<nat, nat>, nodes: seq<Info>, atomic: seq<Event>, x: nat, cause: Cause)
    requires TableOk(table, nodes) && AtomicOk(atomic, table, nodes) && x < |nodes| && InTable(table, nodes, x)
    ensures TableOk(table - {nodes[x].key}, Retiring(nodes, x))
    ensures AtomicOk(atomic + [Event(x, cause)], table - {nodes[x].key}, Retiring(nodes, x))
    ensures Advances(nodes, Retiring(nodes, x))
    ensures forall y :: 0 <= y < |nodes| ==> (InTable(table - {nodes[x].key}, Retiring(nodes, x), y) <==> InTable(table, nodes, y) && y != x)
  {
    var nodes', table' := Retiring(nodes, x), table - {nodes[x].key};
    var atomic' := atomic + [Event(x, cause)];
    assert forall y :: 0 <= y < |nodes| ==> (InTable(table', nodes', y) <==> InTable(table, nodes, y) && y != x);
    forall y | 0 <= y < |nodes'| && !InTable(table', nodes', y) ensures Reported(atomic', y) {
      if y == x {
        assert atomic'[|atomic|].node == x;
      } else {
        assert Reported(atomic, y);
        var i :| 0 <= i < |atomic| && atomic[i].node == y;
        assert atomic'[i].node == y;
      }
    }
  }

  lemma LeaveClean(spurious: multiset<Event>, buffer: seq<Task>, table: map<nat, nat>, nodes: seq<Info>, x: nat)
    requires x < |nodes| && InTable(table, nodes, x) && TableOk(table, nodes)
    ensures Untouched(spurious, buffer, table, nodes) ==> Untouched(spurious, buffer, table - {nodes[x].key}, Retiring(nodes, x))
  {
  }

  /** A new node enters the map under a key that is free. */
  lemma EnterOk(table: map<nat, nat>, nodes: seq<Info>, atomic: seq<Event>, key: nat, expiresAt: int64)
    requires TableOk(table, nodes) && AtomicOk(atomic, table, nodes) && key !in table
    ensures TableOk(table[key := |nodes|], nodes + [Info(key, expiresAt, Alive)])
    ensures AtomicOk(atomic, table[key := |nodes|], nodes + [Info(key, expiresAt, Alive)])
    ensures Advances(nodes, nodes + [Info(key, expiresAt, Alive)])
    ensures forall y :: 0 <= y < |nodes| ==>
      (InTable(table[key := |nodes|], nodes + [Info(key, expiresAt, Alive)], y) <==> InTable(table, nodes, y))
  {
  }

  lemma DieOk(table: map<nat, nat>, nodes: seq<Info>, atomic: seq<Event>, x: nat)
    requires TableOk(table, nodes) && AtomicOk(atomic, table, nodes) && x < |nodes|
    ensures TableOk(table, nodes[x := nodes[x].(state := Dead)]) && AtomicOk(atomic, table, nodes[x := nodes[x].(state := Dead)])
    ensures Advances(nodes, nodes[x := nodes[x].(state := Dead)])
    ensures forall y :: 0 <= y < |nodes| ==> (InTable(table, nodes[x := nodes[x].(state := Dead)], y) <==> InTable(table, nodes, y))
  {
  }

  lemma TaskAdvances(t: Task, nodes: seq<Info>, nodes': seq<Info>)
    requires TaskOk(t, nodes) && Advances(nodes, nodes')
    ensures TaskOk(t, nodes')
  {
    assert Later(nodes[t.n], nodes'[t.n]);
    assert t.UpdateTask? ==> Later(nodes[t.prior], nodes'[t.prior]);
  }

  lemma TasksAdvance(buffer: seq<Task>, nodes: seq<Info>, nodes': seq<Info>)
    requires TasksOk(buffer, nodes) && Advances(nodes, nodes')
    ensures TasksOk(buffer, nodes')
  {
    forall t | t in buffer ensures TaskOk(t, nodes') {
      TaskAdvances(t, nodes, nodes');
    }
  }

  /** Nothing but the time of expiry of entries changes. */
  lemma TouchOk(table: map<nat, nat>, nodes: seq<Info>, atomic: seq<Event>, x: nat, expiresAt: int64)
    requires TableOk(table, nodes) && AtomicOk(atomic, table, nodes) && x < |nodes|
    ensures TableOk(table, nodes[x := nodes[x].(expiresAt := expiresAt)])
    ensures AtomicOk(atomic, table, nodes[x := nodes[x].(expiresAt := expiresAt)])
    ensures Advances(nodes, nodes[x := nodes[x].(expiresAt := expiresAt)])
    ensures forall y :: 0 <= y < |nodes| ==> (InTable(table, nodes[x := nodes[x].(expiresAt := expiresAt)], y) <==> InTable(table, nodes, y))
  {
  }

  // ---------- Extending an entry's life on a read ----------

  /** An int64 sum as the machine computes it. */
  function Signed(x: int): (r: int64)
    ensures (r - x) % TWO_64 == 0
  {
    (x + 0x8000_0000_0000_0000) % TWO_64 - 0x8000_0000_0000_0000
  }

  /** The new time of expiry of an entry read at `now`, when the calculator answers `after`. */
  function Extended(expiresAt: int64, after: int64, now: int64): int64 {
    if after <= 0 || Signed(after - Signed(expiresAt - now)) == 0 then expiresAt else Signed(now + after)
  }

  /** The sum of the time and a duration that changes the entry's remaining life leaves the range of int64. */
  predicate Overflows(expiresAt: int64, after: int64, now: int64) {
    after > 0 && after != expiresAt - now && now + after > MAX_INT64
  }

  /** What a read asks for is what it gets, as long as the sum fits. */
  lemma ReadExtends(expiresAt: int64, after: int64, now: int64)
    requires 0 <= now < expiresAt
    ensures after <= 0 ==> Extended(expiresAt, after, now) == expiresAt
    ensures 0 < after <= MAX_INT64 - now ==> Extended(expiresAt, after, now) == now + after
  {
  }

  /** Reading a live entry makes it expire on the spot exactly when the new time of expiry overflows. */
  lemma ReadExpires(n: Info, after: int64, now: int64)
    requires 0 <= now && !HasExpired(n, now)
    ensures HasExpired(n.(expiresAt := Extended(n.expiresAt, after, now)), now) <==> Overflows(n.expiresAt, after, now)
  {
  }

  // ---------- The cache ----------

  ghost predicate Known(choices: nat -> seq<Victim>, n: nat) {
    forall i: nat, v :: v in choices(i) ==> v.node < n
  }

  /** The list names nodes that exist, among them every one that is in the map. */
  ghost predicate Covers(p: Past, l: seq<nat>) {
    && (forall x :: x in l ==> x < |p.nodes|)
    && (forall k :: k in p.table ==> p.table[k] in l)
  }

  lemma CoversLess(p: Past, q: Past, l: seq<nat>, l': seq<nat>, x: nat)
    requires Covers(p, l) && Since(p, q) && |p.nodes| == |q.nodes| && TableOk(q.table, q.nodes)
    requires x < |q.nodes| && !InTable(q.table, q.nodes, x)
    requires forall y :: y in l ==> y == x || y in l'
    requires forall y :: y in l' ==> y in l
    ensures Covers(q, l')
  {
    forall k | k in q.table ensures q.table[k] in l' {
      var y := q.table[k];
      assert InTable(q.table, q.nodes, y);
      assert InTable(p.table, p.nodes, y);
    }
  }

  /** The key has a node that has not expired. */
  predicate Live(table: map<nat, nat>, nodes: seq<Info>, key: nat, now: int64) {
    key in table && table[key] < |nodes| && !HasExpired(nodes[table[key]], now)
  }

  /** The nodes once a task has run, as far as the task itself goes: with a size limit, the replaced or deleted one is dead. */
  function Ran(nodes: seq<Info>, t: Task, withEviction: bool): seq<Info>
    requires TaskOk(t, nodes)
  {
    var x := if t.UpdateTask? then t.prior else t.n;
    if withEviction && !t.AddTask? then nodes[x := nodes[x].(state := Dead)] else nodes
  }

  /** What a task, if there is one, will report. */
  function Owed(t: Option<Task>): multiset<Event> {
    if t.Some? then multiset(Reports(t.value)) else multiset{}
  }

  class Cache {
    const withEviction: bool
    const maxWriteBufferSize: nat
    var table: map<nat, nat>
    var nodes: seq<Info>
    var buffer: seq<Task>
    var atomicEvents: seq<Event>
    var deletionEvents: seq<Event>
    /** What the deletion listener was or will be told of nodes that have not left. */
    ghost var spurious: multiset<Event>

    ghost predicate Owes(owed: multiset<Event>)
      reads this
    {
      && TableOk(table, nodes)
      && AtomicOk(atomicEvents, table, nodes)
      && TasksOk(buffer, nodes)
      && Balanced(atomicEvents, spurious, deletionEvents, buffer, owed)
    }

    ghost predicate Valid()
      reads this
    {
      Owes(multiset{})
    }

    ghost predicate Clean()
      reads this
    {
      Untouched(spurious, buffer, table, nodes)
    }

    ghost function Now(): Past
      reads this
    {
      Past(table, nodes, atomicEvents, deletionEvents, spurious)
    }

    constructor (withEviction: bool, maxWriteBufferSize: nat)
      ensures Valid() && Clean() && Now() == Past(map[], [], [], [], multiset{}) && buffer == []
      ensures this.withEviction == withEviction && this.maxWriteBufferSize == maxWriteBufferSize
    {
      this.withEviction, this.maxWriteBufferSize := withEviction, maxWriteBufferSize;
      table, nodes, buffer, atomicEvents, deletionEvents, spurious := map[], [], [], [], [], multiset{};
    }

    // ----- Inside the hash map's Compute -----

    /** The node leaves the map: the step shared by writes, removals and evictions. */
    method Retire(x: nat, cause: Cause, now: int64, ghost owed: multiset<Event>) returns (event: Event)
      requires Owes(owed) && x < |nodes| && InTable(table, nodes, x)
      modifies `table, `nodes, `atomicEvents
      ensures event == Event(x, if old(nodes)[x].expiresAt <= now then Expiration else cause)
      ensures nodes == Retiring(old(nodes), x) && atomicEvents == old(atomicEvents) + [event]
      ensures table == old(table) - {old(nodes)[x].key} && !InTable(table, nodes, x)
      ensures Owes(owed + multiset{event}) && Since(old(Now()), Now())
      ensures old(Clean()) ==> Clean()
    {
      hide TableOk, AtomicOk, TasksOk, Balanced, Untouched;
      event := Event(x, GetCause(nodes[x], now, cause));
      LeaveClean(spurious, buffer, table, nodes, x);
      LeaveOk(table, nodes, atomicEvents, x, event.cause);
      TasksAdvance(buffer, nodes, Retiring(nodes, x));
      OwedOnceMore(atomicEvents, spurious, deletionEvents, buffer, owed, event);
      table := table - {nodes[x].key};
      atomicEvents := atomicEvents + [event];
      nodes := Retiring(nodes, x);
    }

    /** A new node for a key that is free. */
    method Enter(key: nat, expiresAt: int64, ghost owed: multiset<Event>)
      requires Owes(owed) && key !in table
      modifies `table, `nodes
      ensures Owes(owed) && table == old(table)[key := old(|nodes|)] && nodes == old(nodes) + [Info(key, expiresAt, Alive)]
      ensures Since(old(Now()), Now())
      ensures old(Clean()) ==> Clean()
    {
      ghost var more := nodes + [Info(key, expiresAt, Alive)];
      EnterOk(table, nodes, atomicEvents, key, expiresAt);
      TasksAdvance(buffer, nodes, more);
      table := table[key := |nodes|];
      nodes := nodes + [Info(key, expiresAt, Alive)];
    }

    /** A new node for the key, in place of whatever node it had. */
    method AtomicSet(key: nat, expiresAt: int64, now: int64) returns (n: nat, left: Option<Event>)
      requires Valid()
      modifies `table, `nodes, `atomicEvents
      ensures n == old(|nodes|) && table == old(table)[key := n]
      ensures left.Some? <==> key in old(table)
      ensures left.None? ==> nodes == old(nodes) + [Info(key, expiresAt, Alive)] && atomicEvents == old(atomicEvents) && Valid()
      ensures left.Some? ==>
        var x := old(table)[key];
        && x < n
        && left.value == Event(x, if old(nodes)[x].expiresAt <= now then Expiration else Replacement)
        && nodes == Retiring(old(nodes), x) + [Info(key, expiresAt, Alive)]
        && atomicEvents == old(atomicEvents) + [left.value]
        && Owes(multiset{left.value})
      ensures Since(old(Now()), Now())
      ensures old(Clean()) ==> Clean()
    {
      assert key in table ==> table[key] < |nodes| && nodes[table[key]].key == key && InTable(table, nodes, table[key]);
      hide TableOk, AtomicOk, TasksOk, Balanced, Since, Untouched;
      n, left := |nodes|, None;
      if key in table {
        var event := Retire(table[key], Replacement, now, multiset{});
        assert multiset{} + multiset{event} == multiset{event};
        left := Some(event);
        assert table[key := n] == old(table)[key := n];
        ghost var mid := Now();
        Enter(key, expiresAt, multiset{event});
        SinceTransitive(old(Now()), mid, Now());
      } else {
        Enter(key, expiresAt, multiset{});
      }
    }

    /** The node of the key, if there is one, leaves. */
    method AtomicDelete(key: nat, now: int64) returns (left: Option<Event>)
      requires Valid()
      modifies `table, `nodes, `atomicEvents
      ensures left.Some? <==> key in old(table)
      ensures left.None? ==> table == old(table) && nodes == old(nodes) && atomicEvents == old(atomicEvents) && Valid()
      ensures left.Some? ==>
        var x := old(table)[key];
        && x < old(|nodes|)
        && left.value == Event(x, if old(nodes)[x].expiresAt <= now then Expiration else Invalidation)
        && table == old(table) - {key}
        && nodes == Retiring(old(nodes), x) && !InTable(table, nodes, x)
        && atomicEvents == old(atomicEvents) + [left.value]
        && Owes(multiset{left.value})
      ensures Since(old(Now()), Now())
      ensures old(Clean()) ==> Clean()
    {
      assert key in table ==> table[key] < |nodes| && nodes[table[key]].key == key && InTable(table, nodes, table[key]);
      hide TableOk, AtomicOk, TasksOk, Balanced, Since, Untouched;
      left := None;
      SinceSelf(Now());
      if key in table {
        var event := Retire(table[key], Invalidation, now, multiset{});
        assert multiset{} + multiset{event} == multiset{event};
        left := Some(event);
      }
    }

    // ----- Under the eviction lock -----

    /** A node dies; it may be one that is in the map. */
    method Kill(x: nat, ghost owed: multiset<Event>)
      requires Owes(owed) && x < |nodes|
      modifies `nodes
      ensures Owes(owed) && nodes == old(nodes)[x := old(nodes)[x].(state := Dead)] && Since(old(Now()), Now())
      ensures InTable(table, nodes, x) <==> old(InTable(table, nodes, x))
      ensures old(Clean()) ==> (Clean() <==> !InTable(table, nodes, x))
    {
      DieOk(table, nodes, atomicEvents, x);
      TasksAdvance(buffer, nodes, nodes[x := nodes[x].(state := Dead)]);
      nodes := nodes[x := nodes[x].(state := Dead)];
      assert InTable(table, nodes, x) ==> nodes[x].key in table && table[nodes[x].key] == x;
    }

    /** Evicts or expires a node: if it was still in the map, both listeners hear of it, with one cause; otherwise neither does. */
    method EvictNode(x: nat, now: int64, ghost owed: multiset<Event>)
      requires Owes(owed) && x < |nodes|
      modifies `table, `nodes, `atomicEvents, `deletionEvents
      ensures Owes(owed) && nodes == old(nodes)[x := old(nodes)[x].(state := Dead)] && !InTable(table, nodes, x)
      ensures !old(InTable(table, nodes, x)) ==>
        table == old(table) && atomicEvents == old(atomicEvents) && deletionEvents == old(deletionEvents)
      ensures old(InTable(table, nodes, x)) ==>
        var event := Event(x, if old(nodes)[x].expiresAt <= now then Expiration else Overflow);
        && table == old(table) - {old(nodes)[x].key}
        && atomicEvents == old(atomicEvents) + [event]
        && deletionEvents == old(deletionEvents) + [event]
      ensures Since(old(Now()), Now())
      ensures old(Clean()) ==> Clean()
    {
      hide TableOk, AtomicOk, TasksOk, Balanced, Since, Untouched;
      var cause := if HasExpired(nodes[x], now) then Expiration else Overflow;
      var deleted := nodes[x].key in table && table[nodes[x].key] == x;
      if deleted {
        var event := Retire(x, cause, now, owed);
        ghost var mid := Now();
        Kill(x, owed + multiset{event});
        assert nodes == old(nodes)[x := old(nodes)[x].(state := Dead)];
        assert Since(old(Now()), Now()) by { SinceTransitive(old(Now()), mid, Now()); }
        assert owed + multiset{event} == multiset([event]) + owed;
        ghost var dead := Now();
        Notify([event], owed);
        SinceTransitive(old(Now()), dead, Now());
      } else {
        Kill(x, owed);
      }
    }

    /** The deletion listener hears of what was owed to it. */
    method Notify(events: seq<Event>, ghost rest: multiset<Event>)
      requires Owes(multiset(events) + rest)
      modifies `deletionEvents
      ensures Owes(rest) && deletionEvents == old(deletionEvents) + events && Since(old(Now()), Now())
      ensures Clean() == old(Clean())
    {
      deletionEvents := deletionEvents + events;
    }

    method EvictAll(victims: seq<Victim>, ghost owed: multiset<Event>)
      requires Owes(owed) && forall v :: v in victims ==> v.node < |nodes|
      modifies `table, `nodes, `atomicEvents, `deletionEvents
      ensures Owes(owed) && |nodes| == old(|nodes|)
      ensures victims == [] ==> Now() == old(Now())
      ensures forall v :: v in victims ==> nodes[v.node].state == Dead
      ensures Since(old(Now()), Now())
      ensures old(Clean()) ==> Clean()
    {
      hide TableOk, AtomicOk, TasksOk, Balanced, Since, Untouched, InTable;
      SinceSelf(Now());
      for i := 0 to |victims|
        invariant Owes(owed) && |nodes| == old(|nodes|)
        invariant i == 0 ==> Now() == old(Now())
        invariant forall v :: v in victims[..i] ==> nodes[v.node].state == Dead
        invariant Since(old(Now()), Now())
        invariant old(Clean()) ==> Clean()
      {
        ghost var mid := Now();
        EvictNode(victims[i].node, victims[i].now, owed);
        assert victims[..i + 1] == victims[..i] + [victims[i]];
        SinceTransitive(old(Now()), mid, Now());
      }
    }

    /**
      Brings the policies up to date with one change; `victims` are the nodes the policy evicts on the way.
      With a size limit the replaced or deleted node dies, even if it is the node of an update by itself.
    */
    method RunTask(t: Task, victims: seq<Victim>, ghost rest: multiset<Event>)
      requires Owes(multiset(Reports(t)) + rest) && TaskOk(t, nodes)
      requires forall v :: v in victims ==> v.node < |nodes|
      modifies `table, `nodes, `atomicEvents, `deletionEvents
      ensures Owes(rest) && |nodes| == old(|nodes|)
      ensures !withEviction ==> table == old(table) && nodes == old(nodes) && deletionEvents == old(deletionEvents) + Reports(t)
      ensures withEviction && t.UpdateTask? ==> nodes[t.prior].state == Dead
      ensures t.DeleteTask? || victims == [] ==>
        && table == old(table) && atomicEvents == old(atomicEvents) && deletionEvents == old(deletionEvents) + Reports(t)
        && nodes == Ran(old(nodes), t, withEviction)
      ensures withEviction && !t.DeleteTask? ==> forall v :: v in victims ==> nodes[v.node].state == Dead
      ensures exists heard :: old(deletionEvents) <= heard && deletionEvents == heard + Reports(t)
      ensures Since(old(Now()), Now())
      ensures old(Clean()) && !ByItself(t) ==> Clean()
    {
      hide TableOk, AtomicOk, TasksOk, Balanced, Since, Untouched, InTable;
      ghost var owed := multiset(Reports(t)) + rest;
      SinceSelf(Now());
      ghost var killed := Now();
      if withEviction {
        if !t.AddTask? {
          assert old(Clean()) && !ByItself(t) ==> !InTable(table, nodes, if t.UpdateTask? then t.prior else t.n) by {
            if Clean() && !ByItself(t) {
              DeadOutside(if t.UpdateTask? then t.prior else t.n);
            }
          }
          Kill(if t.UpdateTask? then t.prior else t.n, owed);
        }
        killed := Now();
        if t.DeleteTask? {
          SinceSelf(Now());
        } else {
          EvictAll(victims, owed);
          SinceTransitive(old(Now()), killed, Now());
        }
      }
      assert withEviction && t.UpdateTask? ==> nodes[t.prior].state == Dead by {
        if withEviction && t.UpdateTask? {
          StaysDead(killed, Now(), t.prior);
        }
      }
      ghost var ran := Now();
      Notify(Reports(t), rest);
      assert old(deletionEvents) <= ran.deletions && deletionEvents == ran.deletions + Reports(t) by {
        assert Since(old(Now()), ran) ==> old(Now()).deletions <= ran.deletions by { SinceGrows(old(Now()), ran); }
      }
      SinceTransitive(old(Now()), ran, Now());
    }

    lemma DeadOutside(x: nat)
      requires Clean() && x < |nodes| && nodes[x].state != Alive
      ensures !InTable(table, nodes, x)
    {
    }

    /** Pops one task and runs it. */
    method RunFirst(victims: seq<Victim>, ghost rest: multiset<Event>)
      requires Owes(rest) && buffer != []
      requires forall v :: v in victims ==> v.node < |nodes|
      modifies `table, `nodes, `buffer, `atomicEvents, `deletionEvents
      ensures Owes(rest) && |nodes| == old(|nodes|) && buffer == old(buffer)[1..]
      ensures TaskOk(old(buffer)[0], old(nodes))
      ensures victims == [] ==>
        && table == old(table) && atomicEvents == old(atomicEvents) && deletionEvents == old(deletionEvents) + Reports(old(buffer)[0])
        && nodes == Ran(old(nodes), old(buffer)[0], withEviction)
      ensures Since(old(Now()), Now())
      ensures old(Clean()) ==> Clean()
    {
      var t := buffer[0];
      assert TaskOk(t, nodes);
      buffer := buffer[1..];
      assert Owes(multiset(Reports(t)) + rest);
      assert old(Clean()) ==> Clean() && !ByItself(t);
      hide TableOk, AtomicOk, TasksOk, Balanced, Since, Untouched, Ran;
      RunTask(t, victims, rest);
    }

    method DrainWriteBuffer(choices: nat -> seq<Victim>, ghost rest: multiset<Event>)
      requires Owes(rest) && Known(choices, |nodes|)
      modifies `table, `nodes, `buffer, `atomicEvents, `deletionEvents
      ensures Owes(rest) && |nodes| == old(|nodes|)
      ensures buffer == old(buffer)[if |old(buffer)| <= maxWriteBufferSize + 1 then |old(buffer)| else maxWriteBufferSize + 1..]
      ensures Since(old(Now()), Now())
      ensures old(Clean()) ==> Clean()
    {
      hide TableOk, AtomicOk, TasksOk, Balanced, Since, Untouched;
      SinceSelf(Now());
      var i := 0;
      while i <= maxWriteBufferSize && buffer != []
        invariant i <= maxWriteBufferSize + 1 && i <= |old(buffer)| && buffer == old(buffer)[i..]
        invariant Owes(rest) && |nodes| == old(|nodes|)
        invariant Since(old(Now()), Now())
        invariant old(Clean()) ==> Clean()
      {
        ghost var mid := Now();
        RunFirst(choices(i), rest);
        SinceTransitive(old(Now()), mid, Now());
        i := i + 1;
      }
    }

    /** One round of maintenance, with the task of a writer that found the buffer full, if any. */
    method Maintenance(t: Option<Task>, choices: nat -> seq<Victim>)
      requires Owes(Owed(t)) && Known(choices, |nodes|) && (t.Some? ==> TaskOk(t.value, nodes))
      modifies `table, `nodes, `buffer, `atomicEvents, `deletionEvents
      ensures Valid() && |nodes| == old(|nodes|)
      ensures |old(buffer)| <= maxWriteBufferSize + 1 ==> buffer == []
      ensures Since(old(Now()), Now())
      ensures old(Clean()) && (t.Some? ==> !ByItself(t.value)) ==> Clean()
    {
      hide TableOk, AtomicOk, TasksOk, Balanced, Since, Untouched;
      DrainWriteBuffer(choices, Owed(t));
      if t.Some? {
        ghost var mid := Now();
        assert Owed(t) == multiset(Reports(t.value)) + multiset{};
        assert TaskOk(t.value, nodes) by { StillOk(t.value, old(Now()), Now()); }
        RunTask(t.value, choices(maxWriteBufferSize + 1), multiset{});
        SinceTransitive(old(Now()), mid, Now());
      }
      ghost var before := Now();
      EvictAll(choices(maxWriteBufferSize + 2), multiset{});
      SinceTransitive(old(Now()), before, Now());
    }

    // ----- After the hash map's Compute -----

    /** Hands the task over; when the buffer stays full the writer does the maintenance itself. */
    method AfterWriteTask(t: Task, accepted: bool, choices: nat -> seq<Victim>)
      requires Owes(multiset(Reports(t))) && TaskOk(t, nodes) && Known(choices, |nodes|)
      modifies `table, `nodes, `buffer, `atomicEvents, `deletionEvents
      ensures Valid() && |nodes| == old(|nodes|)
      ensures Since(old(Now()), Now())
      ensures accepted ==> buffer == old(buffer) + [t]
      ensures accepted ==> table == old(table) && nodes == old(nodes) && atomicEvents == old(atomicEvents) && deletionEvents == old(deletionEvents)
      ensures old(Clean()) && !ByItself(t) ==> Clean()
    {
      if accepted {
        PendingPush(buffer, t);
        buffer := buffer + [t];
      } else {
        Maintenance(Some(t), choices);
      }
    }

    /** The update task of a write, or the add task where the key was free. */
    function WriteTask(n: nat, left: Option<Event>): Task {
      if left.Some? then UpdateTask(n, left.value.node, left.value.cause) else AddTask(n)
    }

    method AfterWrite(n: nat, left: Option<Event>, accepted: bool, choices: nat -> seq<Victim>)
      requires n < |nodes| && Known(choices, |nodes|)
      requires left.Some? ==> left.value.node < n && nodes[left.value.node].state != Alive
      requires Owes(if left.Some? then multiset{left.value} else multiset{})
      modifies `table, `nodes, `buffer, `atomicEvents, `deletionEvents
      ensures Valid() && |nodes| == old(|nodes|)
      ensures Since(old(Now()), Now())
      ensures accepted ==> buffer == old(buffer) + [WriteTask(n, left)]
      ensures accepted ==> table == old(table) && nodes == old(nodes) && atomicEvents == old(atomicEvents) && deletionEvents == old(deletionEvents)
      ensures old(Clean()) ==> Clean()
    {
      hide TableOk, AtomicOk, TasksOk, Balanced, Since, Untouched;
      assert left.Some? ==> Reports(WriteTask(n, left)) == [left.value];
      assert left.None? ==> Reports(WriteTask(n, left)) == [];
      AfterWriteTask(WriteTask(n, left), accepted, choices);
    }

    method AfterDelete(left: Option<Event>, accepted: bool, choices: nat -> seq<Victim>)
      requires Known(choices, |nodes|)
      requires left.Some? ==> left.value.node < |nodes| && nodes[left.value.node].state != Alive
      requires Owes(if left.Some? then multiset{left.value} else multiset{})
      modifies `table, `nodes, `buffer, `atomicEvents, `deletionEvents
      ensures Valid() && |nodes| == old(|nodes|)
      ensures Since(old(Now()), Now())
      ensures left.None? || accepted ==> buffer == old(buffer) + (if left.Some? then [DeleteTask(left.value.node, left.value.cause)] else [])
      ensures left.None? || accepted ==>
        table == old(table) && nodes == old(nodes) && atomicEvents == old(atomicEvents) && deletionEvents == old(deletionEvents)
      ensures old(Clean()) ==> Clean()
    {
      hide TableOk, AtomicOk, TasksOk, Balanced, Since, Untouched;
      SinceSelf(Now());
      if left.Some? {
        assert Reports(DeleteTask(left.value.node, left.value.cause)) == [left.value];
        AfterWriteTask(DeleteTask(left.value.node, left.value.cause), accepted, choices);
      }
    }

    // ----- The operations of the cache -----

    /** A live entry was hit: the calculator may give it a new time of expiry. */
    method Touch(x: nat, after: int64, now: int64)
      requires Valid() && x < |nodes|
      modifies `nodes
      ensures Valid() && nodes == old(nodes)[x := old(nodes)[x].(expiresAt := Extended(old(nodes)[x].expiresAt, after, now))]
      ensures Since(old(Now()), Now())
      ensures old(Clean()) ==> Clean()
    {
      ghost var nodes' := nodes[x := nodes[x].(expiresAt := Extended(nodes[x].expiresAt, after, now))];
      TouchOk(table, nodes, atomicEvents, x, Extended(nodes[x].expiresAt, after, now));
      TasksAdvance(buffer, nodes, nodes');
      nodes := nodes[x := nodes[x].(expiresAt := Extended(nodes[x].expiresAt, after, now))];
    }

    method Set(key: nat, expiresAt: int64, now: int64, accepted: bool, choices: nat -> seq<Victim>)
      requires Valid() && Known(choices, |nodes| + 1)
      modifies `table, `nodes, `buffer, `atomicEvents, `deletionEvents
      ensures Valid() && Since(old(Now()), Now())
      ensures key in old(table) ==>
        var x := old(table)[key];
        && x < old(|nodes|)
        && old(atomicEvents) + [Event(x, if old(nodes)[x].expiresAt <= now then Expiration else Replacement)] <= atomicEvents
      ensures accepted ==> table == old(table)[key := old(|nodes|)] && deletionEvents == old(deletionEvents)
      ensures accepted && key !in old(table) ==>
        && nodes == old(nodes) + [Info(key, expiresAt, Alive)] && atomicEvents == old(atomicEvents)
        && buffer == old(buffer) + [AddTask(old(|nodes|))]
      ensures accepted && key in old(table) ==>
        var x := old(table)[key];
        && nodes == Retiring(old(nodes), x) + [Info(key, expiresAt, Alive)]
        && buffer == old(buffer) + [UpdateTask(old(|nodes|), x, if old(nodes)[x].expiresAt <= now then Expiration else Replacement)]
      ensures old(Clean()) ==> Clean()
    {
      hide TableOk, AtomicOk, TasksOk, Balanced, Since, Untouched, InTable;
      var n, left := AtomicSet(key, expiresAt, now);
      ghost var mid := Now();
      AfterWrite(n, left, accepted, choices);
      SinceTransitive(old(Now()), mid, Now());
      SinceGrows(mid, Now());
    }

    method Invalidate(key: nat, now: int64, accepted: bool, choices: nat -> seq<Victim>) returns (invalidated: bool)
      requires Valid() && Known(choices, |nodes|)
      modifies `table, `nodes, `buffer, `atomicEvents, `deletionEvents
      ensures Valid() && Since(old(Now()), Now()) && |nodes| == old(|nodes|)
      ensures invalidated <==> key in old(table)
      ensures invalidated ==>
        var x := old(table)[key];
        && x < |nodes| && !InTable(table, nodes, x)
        && old(atomicEvents) + [Event(x, if old(nodes)[x].expiresAt <= now then Expiration else Invalidation)] <= atomicEvents
      ensures accepted ==> table == old(table) - {key} && deletionEvents == old(deletionEvents)
      ensures accepted && key in old(table) ==>
        buffer == old(buffer) + [DeleteTask(old(table)[key], if old(nodes)[old(table)[key]].expiresAt <= now then Expiration else Invalidation)]
      ensures key !in old(table) ==> nodes == old(nodes) && buffer == old(buffer)
      ensures old(Clean()) ==> Clean()
    {
      hide TableOk, AtomicOk, TasksOk, Balanced, Since, Untouched, InTable;
      var left := AtomicDelete(key, now);
      ghost var mid := Now();
      AfterDelete(left, accepted, choices);
      SinceTransitive(old(Now()), mid, Now());
      SinceGrows(mid, Now());
      invalidated := left.Some?;
      if invalidated {
        StaysOut(mid, Now(), left.value.node);
      }
    }

    method GetIfPresent(key: nat, after: int64, now: int64) returns (found: bool)
      requires Valid()
      modifies `nodes
      ensures Valid() && Since(old(Now()), Now())
      ensures found <==> Live(table, old(nodes), key, now)
      ensures found && 0 <= now ==>
        var x := table[key];
        && x < |nodes|
        && (after <= 0 ==> nodes[x].expiresAt == old(nodes)[x].expiresAt)
        && (0 < after <= MAX_INT64 - now ==> nodes[x].expiresAt == now + after)
      ensures nodes ==
        if found
        then var x := table[key]; old(nodes)[x := old(nodes)[x].(expiresAt := Extended(old(nodes)[x].expiresAt, after, now))]
        else old(nodes)
      ensures old(Clean()) ==> Clean()
    {
      hide AtomicOk, TasksOk, Balanced, Untouched, Since, Extended, Signed;
      found := key in table && !HasExpired(nodes[table[key]], now);
      SinceSelf(Now());
      if found {
        if 0 <= now {
          ReadExtends(nodes[table[key]].expiresAt, after, now);
        }
        Touch(table[key], after, now);
      }
    }

    /** The hit of SetIfAbsent: when the entry's new time of expiry overflows, the code makes an update of the entry by itself. */
    method SetIfAbsent(key: nat, expiresAt: int64, after: int64, now: int64, accepted: bool, choices: nat -> seq<Victim>) returns (stored: bool)
      requires Valid() && Known(choices, if Live(table, nodes, key, now) then |nodes| else |nodes| + 1) && 0 <= now
      modifies this
      ensures Valid() && Since(old(Now()), Now())
      ensures Live(old(table), old(nodes), key, now) ==>
        var x := old(table)[key];
        && (stored <==> Overflows(old(nodes)[x].expiresAt, after, now))
        && spurious == old(spurious) + (if stored then multiset{Event(x, Expiration)} else multiset{})
        && (stored && accepted ==> buffer == old(buffer) + [UpdateTask(x, x, Expiration)])
        && (!stored || accepted ==>
              && table == old(table) && atomicEvents == old(atomicEvents) && deletionEvents == old(deletionEvents)
              && nodes == old(nodes)[x := old(nodes)[x].(expiresAt := Extended(old(nodes)[x].expiresAt, after, now))])
      ensures !Live(old(table), old(nodes), key, now) ==>
        && stored && spurious == old(spurious)
        && (accepted ==> table == old(table)[key := old(|nodes|)])
        && (key in old(table) ==> old(atomicEvents) + [Event(old(table)[key], Expiration)] <= atomicEvents)
      ensures old(Clean()) ==>
        (Clean() <==> !(Live(old(table), old(nodes), key, now) && Overflows(old(nodes)[old(table)[key]].expiresAt, after, now)))
    {
      assert key in table ==> table[key] < |nodes| && nodes[table[key]].key == key;
      hide TableOk, AtomicOk, TasksOk, Balanced, Since, Untouched, InTable;
      if key in table && !HasExpired(nodes[table[key]], now) {
        var x := table[key];
        ReadExpires(nodes[x], after, now);
        Touch(x, after, now);
        stored := HasExpired(nodes[x], now);
        if stored {
          ghost var mid := Now();
          var t := UpdateTask(x, x, GetCause(nodes[x], now, Replacement));
          Report(t);
          ghost var told := Now();
          AfterWriteTask(t, accepted, choices);
          SinceTransitive(old(Now()), mid, told);
          SinceTransitive(old(Now()), told, Now());
          assert Event(x, Expiration) in told.spurious;
          NotClean(told, Now());
        }
      } else {
        stored := true;
        Set(key, expiresAt, now, accepted, choices);
      }
    }

    /** From here on the deletion listener owes its existence to a node that has not left. */
    ghost method Report(t: Task)
      requires Valid() && t.UpdateTask?
      modifies `spurious
      ensures Owes(multiset(Reports(t))) && spurious == old(spurious) + multiset{Event(t.prior, t.cause)}
      ensures Since(old(Now()), Now())
    {
      ghost var e := Event(t.prior, t.cause);
      assert Reports(t) == [e];
      OwedOnceMore(atomicEvents, spurious, deletionEvents, buffer, multiset{}, e);
      assert multiset{} + multiset{e} == multiset(Reports(t));
      spurious := spurious + multiset{e};
    }

    lemma NotClean(p: Past, q: Past)
      requires Since(p, q) && q == Now() && exists e :: e in p.spurious
      ensures !Clean()
    {
      var e :| e in p.spurious;
      assert q.spurious[e] > 0;
    }

    method Compute(key: nat, op: ComputeOp, expiresAt: int64, now: int64, accepted: bool, choices: nat -> seq<Victim>)
      requires Valid() && Known(choices, if op.WriteOp? then |nodes| + 1 else |nodes|)
      modifies `table, `nodes, `buffer, `atomicEvents, `deletionEvents
      ensures Valid() && Since(old(Now()), Now())
      ensures op.WriteOp? && accepted ==> table == old(table)[key := old(|nodes|)]
      ensures op.InvalidateOp? && accepted ==> table == old(table) - {key}
      ensures op.CancelOp? && accepted ==>
        table == if Live(old(table), old(nodes), key, now) then old(table) else old(table) - {key}
      ensures op.Broken? ==> table == old(table) && nodes == old(nodes) && buffer == old(buffer)
      ensures op.CancelOp? && key in old(table) && !Live(old(table), old(nodes), key, now) ==>
        old(atomicEvents) + [Event(old(table)[key], Expiration)] <= atomicEvents
      ensures old(Clean()) ==> Clean()
    {
      assert key in table ==> table[key] < |nodes|;
      hide TableOk, AtomicOk, TasksOk, Balanced, Since, Untouched, InTable;
      SinceSelf(Now());
      if op.WriteOp? {
        Set(key, expiresAt, now, accepted, choices);
      } else if op.InvalidateOp? || (op.CancelOp? && key in table && HasExpired(nodes[table[key]], now)) {
        var invalidated := Invalidate(key, now, accepted, choices);
      }
    }

    /** A load ends; `correct` says that its call was still registered. */
    method AfterDeleteCall(key: nat, correct: bool, loaded: Loaded, expiresAt: int64, now: int64, accepted: bool, choices: nat -> seq<Victim>)
      requires Valid() && Known(choices, if loaded.Value? then |nodes| + 1 else |nodes|)
      modifies `table, `nodes, `buffer, `atomicEvents, `deletionEvents
      ensures Valid() && Since(old(Now()), Now())
      ensures !correct || loaded.Failed? ==> table == old(table) && nodes == old(nodes) && buffer == old(buffer)
      ensures correct && loaded.Value? && accepted ==> table == old(table)[key := old(|nodes|)]
      ensures correct && loaded.NotFound? && accepted ==> table == old(table) - {key}
      ensures correct && !loaded.Failed? && key in old(table) ==>
        var x := old(table)[key];
        && x < old(|nodes|)
        && old(atomicEvents) + [Event(x, if old(nodes)[x].expiresAt <= now then Expiration else if loaded.Value? then Replacement else Invalidation)] <= atomicEvents
      ensures old(Clean()) ==> Clean()
    {
      hide TableOk, AtomicOk, TasksOk, Balanced, Since, Untouched, InTable;
      SinceSelf(Now());
      if correct && loaded.NotFound? {
        var deleted := Invalidate(key, now, accepted, choices);
      } else if correct && loaded.Value? {
        Set(key, expiresAt, now, accepted, choices);
      }
    }

    /** Deletes one node while the lock is held: its task runs at once. */
    method DeleteNode(x: nat, now: int64)
      requires Valid() && x < |nodes|
      modifies `table, `nodes, `buffer, `atomicEvents, `deletionEvents
      ensures Valid() && |nodes| == old(|nodes|) && !InTable(table, nodes, x) && buffer == old(buffer)
      ensures Since(old(Now()), Now())
      ensures old(Clean()) ==> Clean()
    {
      hide TableOk, AtomicOk, TasksOk, Balanced, Since, Untouched;
      SinceSelf(Now());
      if nodes[x].key in table && table[nodes[x].key] == x {
        var event := Retire(x, Invalidation, now, multiset{});
        ghost var mid := Now();
        assert Reports(DeleteTask(x, event.cause)) == [event];
        assert multiset{} + multiset{event} == multiset([event]) + multiset{};
        RunTask(DeleteTask(x, event.cause), [], multiset{});
        assert !InTable(table, nodes, x) by { StaysOut(mid, Now(), x); }
        SinceTransitive(old(Now()), mid, Now());
      }
    }

    /** The nodes of the map, in no particular order. */
    method Snapshot() returns (snapshot: seq<nat>)
      requires Valid()
      ensures Covers(Now(), snapshot)
    {
      snapshot := [];
      var keys := table.Keys;
      while keys != {}
        invariant keys <= table.Keys
        invariant forall x :: x in snapshot ==> x < |nodes|
        invariant forall k :: k in table ==> k in keys || table[k] in snapshot
        decreases |keys|
      {
        var k :| k in keys;
        snapshot, keys := snapshot + [table[k]], keys - {k};
      }
    }

    method DrainAll(choices: nat -> seq<Victim>)
      requires Valid() && Known(choices, |nodes|)
      modifies `table, `nodes, `buffer, `atomicEvents, `deletionEvents
      ensures Valid() && |nodes| == old(|nodes|) && buffer == []
      ensures Since(old(Now()), Now())
      ensures old(Clean()) ==> Clean()
    {
      hide TableOk, AtomicOk, TasksOk, Balanced, Since, Untouched;
      SinceSelf(Now());
      var i := 0;
      while buffer != []
        invariant Valid() && |nodes| == old(|nodes|)
        invariant Since(old(Now()), Now())
        invariant old(Clean()) ==> Clean()
        decreases |buffer|
      {
        ghost var mid := Now();
        RunFirst(choices(i), multiset{});
        SinceTransitive(old(Now()), mid, Now());
        i := i + 1;
      }
    }

    /** Deletes nodes from the end of the list, for as long as the buffer is less than half full. */
    method DeleteFromEnd(snapshot: seq<nat>, now: int64) returns (rest: seq<nat>)
      requires Valid() && Covers(Now(), snapshot)
      modifies `table, `nodes, `buffer, `atomicEvents, `deletionEvents
      ensures Valid() && |nodes| == old(|nodes|) && Covers(Now(), rest)
      ensures buffer == old(buffer) && (rest == [] || |buffer| >= maxWriteBufferSize / 2)
      ensures Since(old(Now()), Now())
      ensures old(Clean()) ==> Clean()
    {
      hide AtomicOk, TasksOk, Balanced, Since, Untouched, InTable;
      SinceSelf(Now());
      rest := snapshot;
      while rest != [] && |buffer| < maxWriteBufferSize / 2
        invariant Valid() && |nodes| == old(|nodes|) && buffer == old(buffer) && Covers(Now(), rest)
        invariant Since(old(Now()), Now())
        invariant old(Clean()) ==> Clean()
        decreases |rest|
      {
        var n := rest[|rest| - 1];
        ghost var mid := Now();
        assert n in rest;
        DeleteNode(n, now);
        assert rest == rest[..|rest| - 1] + [n];
        CoversLess(mid, Now(), rest, rest[..|rest| - 1], n);
        rest := rest[..|rest| - 1];
        SinceTransitive(old(Now()), mid, Now());
      }
    }

    method InvalidateEach(rest: seq<nat>, now: int64, choices: nat -> seq<Victim>, accepts: nat -> bool)
      requires Valid() && Covers(Now(), rest) && Known(choices, |nodes|)
      modifies `table, `nodes, `buffer, `atomicEvents, `deletionEvents
      ensures Valid() && |nodes| == old(|nodes|) && Covers(Now(), [])
      ensures rest == [] ==> buffer == old(buffer)
      ensures Since(old(Now()), Now())
      ensures old(Clean()) ==> Clean()
    {
      hide AtomicOk, TasksOk, Balanced, Since, Untouched;
      SinceSelf(Now());
      for j := 0 to |rest|
        invariant Valid() && |nodes| == old(|nodes|) && Covers(Now(), rest[j..])
        invariant rest == [] ==> buffer == old(buffer)
        invariant Since(old(Now()), Now())
        invariant old(Clean()) ==> Clean()
      {
        assert rest[j..] == [rest[j]] + rest[j + 1..];
        assert rest[j] in rest[j..];
        ghost var mid := Now();
        var invalidated := Invalidate(nodes[rest[j]].key, now, accepts(j), choices);
        assert !InTable(table, nodes, rest[j]) by {
          if !InTable(mid.table, mid.nodes, rest[j]) {
            StaysOut(mid, Now(), rest[j]);
          }
        }
        CoversLess(mid, Now(), rest[j..], rest[j + 1..], rest[j]);
        SinceTransitive(old(Now()), mid, Now());
      }
      assert rest[|rest|..] == [];
    }

    /** Removes everything; afterwards nothing waits in the buffer. */
    method InvalidateAll(now: int64, choices: nat -> seq<Victim>, accepts: nat -> bool)
      requires Valid() && Known(choices, |nodes|) && maxWriteBufferSize >= 128
      modifies `table, `nodes, `buffer, `atomicEvents, `deletionEvents
      ensures Valid() && table == map[] && buffer == []
      ensures Since(old(Now()), Now())
      ensures old(Clean()) ==> Clean()
    {
      hide TableOk, AtomicOk, TasksOk, Balanced, Since, Untouched, InTable;
      DrainAll(choices);
      var snapshot := Snapshot();
      ghost var mid := Now();
      var rest := DeleteFromEnd(snapshot, now);
      SinceTransitive(old(Now()), mid, Now());
      mid := Now();
      InvalidateEach(rest, now, choices, accepts);
      SinceTransitive(old(Now()), mid, Now());
      assert table.Keys == {};
    }
  }

  // ---------- Who has heard ----------

  /** The node is reported at this place of the list and nowhere else. */
  ghost predicate OnlyAt(events: seq<Event>, i: int, x: nat) {
    && 0 <= i < |events| && events[i].node == x
    && forall j :: 0 <= j < |events| && events[j].node == x ==> j == i
  }

  lemma {:induction false} OnceInMultiset(s: seq<Event>, e: Event)
    requires forall i, j :: 0 <= i < j < |s| ==> s[i].node != s[j].node
    ensures multiset(s)[e] <= 1
  {
    if s != [] {
      var last := |s| - 1;
      assert s == s[..last] + [s[last]];
      if s[last] == e {
        assert e !in s[..last];
      } else {
        OnceInMultiset(s[..last], e);
      }
    }
  }

  lemma TwiceInMultiset(s: seq<Event>, i: nat, j: nat)
    requires i < j < |s| && s[i] == s[j]
    ensures multiset(s)[s[i]] >= 2
  {
    assert s == s[..j] + s[j..];
    assert s[..j][i] == s[i] && s[j..][0] == s[i];
    assert s[i] in multiset(s[..j]) && s[i] in multiset(s[j..]);
  }

  /** Two lists that say the same of a node, which the first one reports at most once. */
  lemma SameReports(a: seq<Event>, b: seq<Event>, x: nat)
    requires forall e: Event :: e.node == x ==> multiset(a)[e] == multiset(b)[e]
    requires forall i, j :: 0 <= i < j < |a| ==> a[i].node != a[j].node
    ensures Reported(a, x) <==> Reported(b, x)
    ensures Reported(a, x) ==> exists i, j :: OnlyAt(a, i, x) && OnlyAt(b, j, x) && a[i] == b[j]
  {
    forall e: Event | e.node == x ensures e in a <==> e in b {
      assert e in a <==> e in multiset(a);
      assert e in b <==> e in multiset(b);
    }
    if Reported(b, x) {
      var j :| 0 <= j < |b| && b[j].node == x;
      assert b[j] in a;
      var i :| 0 <= i < |a| && a[i] == b[j];
      forall k | 0 <= k < |b| && b[k].node == x ensures k == j {
        assert b[k] in a;
        if k != j {
          assert b[k] == b[j];
          TwiceInMultiset(b, if k < j then k else j, if k < j then j else k);
          OnceInMultiset(a, b[j]);
        }
      }
      assert OnlyAt(a, i, x) && OnlyAt(b, j, x);
    }
    if Reported(a, x) {
      var i :| 0 <= i < |a| && a[i].node == x;
      assert a[i] in b;
    }
  }

  /**
    In every state the cache reaches: of a node in the map the atomic listener has not heard, of one that has
    left it has heard exactly once. Unless something spurious was said of the node, the other listener has
    heard the same, with the same cause, or will have when the buffer is drained.
  */
  lemma HeardExactlyOnce(table: map<nat, nat>, nodes: seq<Info>, atomic: seq<Event>, spurious: multiset<Event>,
                         deletions: seq<Event>, buffer: seq<Task>, x: nat)
    requires TableOk(table, nodes) && AtomicOk(atomic, table, nodes) && Balanced(atomic, spurious, deletions, buffer, multiset{}) && x < |nodes|
    ensures InTable(table, nodes, x) <==> exists k :: k in table && table[k] == x
    ensures InTable(table, nodes, x) ==> !Reported(atomic, x)
    ensures !InTable(table, nodes, x) ==> exists i :: OnlyAt(atomic, i, x)
    ensures (forall e :: e in spurious ==> e.node != x) ==>
      && (Reported(deletions + Pending(buffer), x) <==> !InTable(table, nodes, x))
      && (!InTable(table, nodes, x) ==>
            exists i, j :: OnlyAt(atomic, i, x) && OnlyAt(deletions + Pending(buffer), j, x) && atomic[i] == (deletions + Pending(buffer))[j])
  {
    var heard := deletions + Pending(buffer);
    assert InTable(table, nodes, x) ==> nodes[x].key in table && table[nodes[x].key] == x;
    SameReports(atomic, atomic, x);
    if forall e :: e in spurious ==> e.node != x {
      forall e: Event | e.node == x ensures multiset(atomic)[e] == multiset(heard)[e] {
        assert (multiset(atomic) + spurious)[e] == (multiset(deletions) + multiset(Pending(buffer)) + multiset{})[e];
        assert e !in spurious;
      }
      SameReports(atomic, heard, x);
    }
  }

  /** Once the buffer is drained the other listener has heard of every node that left, and of no other, if nothing spurious was said. */
  lemma AllHeard(table: map<nat, nat>, nodes: seq<Info>, atomic: seq<Event>, deletions: seq<Event>, x: nat)
    requires TableOk(table, nodes) && AtomicOk(atomic, table, nodes) && Balanced(atomic, multiset{}, deletions, [], multiset{}) && x < |nodes|
    ensures Reported(deletions, x) <==> !InTable(table, nodes, x)
    ensures Reported(deletions, x) ==> exists i, j :: OnlyAt(atomic, i, x) && OnlyAt(deletions, j, x) && atomic[i] == deletions[j]
  {
    HeardExactlyOnce(table, nodes, atomic, multiset{}, deletions, [], x);
    assert deletions + Pending([]) == deletions;
  }

  /** As long as no SetIfAbsent has made its entry expire, the map holds exactly the nodes that are alive. */
  lemma InMapWhenAlive(spurious: multiset<Event>, buffer: seq<Task>, table: map<nat, nat>, nodes: seq<Info>, x: nat)
    requires TableOk(table, nodes) && Untouched(spurious, buffer, table, nodes) && x < |nodes|
    ensures InTable(table, nodes, x) <==> nodes[x].state == Alive
  {
    assert InTable(table, nodes, x) ==> nodes[x].key in table && table[nodes[x].key] == x;
  }

  /**
    What is said spuriously is never made up for: however the run goes on, the deletion listener has heard and
    will hear more than the atomic one. The two agree if and only if nothing spurious was ever said.
  */
  lemma SpuriousReport(p: Past, q: Past, buffer: seq<Task>)
    requires Since(p, q) && Balanced(q.atomic, q.spurious, q.deletions, buffer, multiset{})
    ensures multiset(q.atomic) == multiset(q.deletions + Pending(buffer)) <==> q.spurious == multiset{}
    ensures p.spurious != multiset{} ==> multiset(q.atomic) != multiset(q.deletions + Pending(buffer))
    ensures forall e :: e in p.spurious ==> e in q.deletions + Pending(buffer)
  {
    var heard := q.deletions + Pending(buffer);
    assert multiset(q.atomic) + q.spurious == multiset(heard);
    assert |multiset(heard)| == |multiset(q.atomic)| + |q.spurious|;
    assert q.spurious == multiset{} <==> |q.spurious| == 0;
    assert q.spurious == p.spurious + (q.spurious - p.spurious);
    forall e | e in p.spurious ensures e in heard {
      assert (multiset(q.atomic) + q.spurious)[e] > 0;
      assert e in multiset(heard);
    }
  }

  lemma SinceGrows(p: Past, q: Past)
    requires Since(p, q)
    ensures p.atomic <= q.atomic && p.deletions <= q.deletions && |p.nodes| <= |q.nodes|
  {
  }

  lemma StaysOut(p: Past, q: Past, x: nat)
    requires Since(p, q) && x < |p.nodes| && !InTable(p.table, p.nodes, x)
    ensures x < |q.nodes| && !InTable(q.table, q.nodes, x)
  {
  }

  lemma StillOk(t: Task, p: Past, q: Past)
    requires TaskOk(t, p.nodes) && Since(p, q)
    ensures TaskOk(t, q.nodes)
  {
    TaskAdvances(t, p.nodes, q.nodes);
  }

  /** The clock of a running machine, in nanoseconds. */
  const RECENTLY: int64 := 1_700_000_000_000_000_000

  /** A caller asks for the longest duration there is: the sum wraps to a moment long past. */
  lemma LongestDuration()
    ensures Overflows(RECENTLY + 1, MAX_INT64, RECENTLY) && Extended(RECENTLY + 1, MAX_INT64, RECENTLY) < 0
  {
  }

  /** An entry is stored, its key is stored again if absent with the longest duration, and the tasks are run: the entry is in the map, dead, and reported. */
  method KilledInTheMap() returns (c: Cache)
    ensures c.Valid() && c.table == map[7 := 0] && c.buffer == [] && c.spurious == multiset{Event(0, Expiration)}
    ensures |c.nodes| == 1 && c.nodes[0].state == Dead && c.deletionEvents == [Event(0, Expiration)] && c.atomicEvents == []
  {
    hide TableOk, AtomicOk, TasksOk, Balanced, Since, Untouched, InTable;
    c := new Cache(true, 128);
    c.Set(7, RECENTLY + 1, RECENTLY, true, i => []);
    LongestDuration();
    var stored := c.SetIfAbsent(7, RECENTLY + 1, MAX_INT64, RECENTLY, true, i => []);
    assert c.buffer == [AddTask(0), UpdateTask(0, 0, Expiration)] && |c.nodes| == 1;
    c.RunFirst([], multiset{});
    assert c.buffer == [UpdateTask(0, 0, Expiration)];
    c.RunFirst([], multiset{});
  }
}
