# A verified model of the cache233 core

cache233 is an in-memory cache with W-TinyLFU eviction and expiration. Most of its
code hides a hard piece of state behind a small interface. This project models those
pieces in Dafny, one module each, and proves what each promises to the others.

`dafny verify dfyconfig.toml` checks everything.

## The modules

Two styles are used, following the code.

*Sequential structures* are classes with the fields of the originals, proved against a
mathematical view of their contents.

- `Nodes` is the entry with its links, and a few facts about lists.
- `TimerWheel` is the five-level wheel. Buckets are circles linked through the nodes; the
  ghost map `filed` says which bucket holds each scheduled node, and under which deadline.
  `DeleteExpired` says exactly which nodes it hands over and where every other node is
  afterwards.
- `Deque` is the intrusive deque: each operation is an operation on the list `items`.
- `Policy` is the eviction policy over three such deques. The ghost map `typed` holds the
  *accounted* nodes (their add or update task has run and they are not dead) with their
  queue types. Linked nodes are accounted, not the other way round. `Ledger` is the balance
  of the three running totals with the weights of the accounted nodes, modulo 2^64. `Update`
  covers the call with one node in both roles, for which the promises fail.
- `Eviction` is the order of eviction from the main space on plain lists, without cursors, links or
  weightless entries: `Plan` says who goes. The policy's loop is proved to carry out the plan.
- `Swar` and `HashMap` are the hash table: tag words searched a byte at a time in parallel,
  and chains of buckets refining a finite map (`Model`).
- `Nibbles` and `Sketch` are the count-min sketch with its packed four-bit counters. The
  ghost map `ideal` holds the aged count each key should have.
- `Deletions` is the part of the cache that decides who hears of a deleted entry. Operations
  run one after another there; which nodes maintenance evicts, and whether the write buffer
  has room, is an arbitrary choice at every point. The ghost field `spurious` is what the
  deletion listener was told of nodes that have not left; `Clean` says that it is empty, and will
  be after the tasks that wait.
- `Arith` holds arithmetic: powers of two, remainders, bitwise and. `Options` is one datatype.

*Concurrent protocols* are transition systems. One step is one atomic load, store,
compare-and-swap or lock operation; a run is any sequence of actions, so the theorems speak
of every interleaving of any number of threads. Each protocol is a module with the state, the step
function and the invariant, a module `...Safety` that shows that every step keeps it,
and theorems about every run. A theorem about what an answer says names the moment of the run at which
it was true (`Moment`, `At`). Theorems with `Alone` in their names say what one operation does from any reachable
state in which nobody is in its way, so that no operation can keep its promises by doing nothing.

- `Mpsc`, `MpscSafety`, `MpscTheorems`, `MpscRuns`: the growable queue. `log` is the values in the order in
  which their indices were reserved, `popped` the values taken. A panic of the code is the
  program counter `Crashed` or `CCrashed`. In the theorems about one caller `fuel` bounds the
  steps taken; any number from the stated one on will do.
- `Maintenance`, `MaintenanceSafety`, `MaintenanceTheorems`, `MaintenanceAlone`: the drain status, the eviction
  mutex, the token that decides who unlocks it, and what became of each writer's task. A handed drain may run
  inside its scheduler or on its own.
- `SingleFlight`, `SingleFlightSafety`, `SingleFlightTheorems`: loads, writers and the two maps they share.
- `Lossy`, `LossySafety`, `LossyTheorems`, `LossyAlone`: rings, the growing array of rings, and the drainer.

## What was found

- *Timer wheel.* The time left until a deadline is an unsigned difference. A deadline
  already past when it is added wraps and is filed on the last level, where it waits for that
  level's next tick of 2^49 nanoseconds, six and a half days. `TimerWheel.Wheel.DeleteExpired` gives
  the exact condition under which an expired node is handed over; the condition on the last level is
  there for such nodes alone.
- *SetIfAbsent.* On a hit the entry's time of expiry is recomputed as the sum of the time and the
  duration, which overflows for long durations; the code then takes the entry for expired
  and queues an update of it by itself. The exact condition is `Overflows`, by `Deletions.ReadExpires` and
  `Deletions.Cache.SetIfAbsent`; a caller who asks for the longest duration meets it
  (`Deletions.LongestDuration`). When the update runs,
  - the node is dead while it is still in the map, and the deletion listener hears of an
    entry that has not left (`Deletions.KilledInTheMap` is such a run). The two listeners never agree
    again, and nothing but such updates parts them: `Deletions.SpuriousReport`;
  - its queue loses the node's links while the neighbours keep theirs. The queue stays a list if and only
    if the two nodes differ, or the node is not on it, or alone on it: `Deque.Linked.UpdateNode`, and
    `Deque.TornByItself` for three nodes;
  - its weight is counted for good, unless it is zero: `Policy.Policy.Update`, `Policy.ExcessStays`. The totals then
    no longer say whether the cache is too heavy;
  - the policy follows a tail that is missing, and panics, if and only if the node was the first of several
    and the update counts as a read: `Stuck` in `Policy.Policy.Update`, and `Policy.StuckByItself`.
- *Policy.* An update with a node the cache has room for links it if and only if the old one was linked. If the old one
  was evicted first, the new node is alive and accounted for but on no queue
  (`Policy.Forgotten`), and an eviction chooses from the queues only. Neither reads nor
  the work of the policy on other nodes change that: `Policy.UpdateAfterEviction`, `Policy.StaysUnlinked`,
  `Policy.StaysUnlinkedByOthers`.
- *Single flight.* A writer cancels a load when it reaches the call map, not when it stores.
  A write that takes its cancelling step while no load is registered, and stores once one is, is
  overwritten by the loaded value: `SingleFlightSafety.CancelledTooEarly`. A call changes the entry exactly if
  no writer's cancelling step met it while it was registered: `SingleFlightSafety.AppliedExactly`.
- *InvalidateAll.* It empties the write buffer and releases the mutex without looking at the drain status. A
  write that tries the mutex meanwhile finds it taken and leaves, so its task waits although all is done, on the
  default executor, too: `MaintenanceAlone.LeftBehind`. Without InvalidateAll that cannot happen
  (`MaintenanceTheorems.NothingLeft`), and the next operation of any other kind makes up for it
  (`MaintenanceTheorems.NextCleansUp`).
- *deleteCall* answers true also when no call is registered any more. The bucket lock of the
  entry map makes that case harmless for the call that asks, and the proof relies on it.

## Model

| member | source | states |
|---|---|---|
| MpscTheorems.EveryRun | internal/deque/queue/mpsc.go:56-309 | Over every interleaving of any number of producers and the consumer: the popped values are a prefix of the pushed ones in reservation order, no more than the rounded maximum capacity is reserved and not taken, finished pushes own distinct positions holding their values, a push is refused only if the queue was full, a pop is empty only if the queue was empty, and no panic is reached. How full that is, and when, is MpscRuns.RefusedWhenFull and MpscRuns.PushFromNew |
| MpscTheorems.PushAloneOk | internal/deque/queue/mpsc.go:119-188 | With nobody else inside a call, TryPush is refused if and only if the queue holds exactly the maximum capacity, and otherwise appends its value, through a resize if need be |
| MpscTheorems.PopAloneOk | internal/deque/queue/mpsc.go:190-215 | With the producers settled, TryPop returns the oldest value not yet taken, across a jump to the next buffer if need be, and nil exactly when there is none |
| MpscTheorems.StepHistory | internal/deque/queue/mpsc.go:119-215 | One step adds to the history only by reserving the next position for the value being pushed, or by taking the next value in order |
| MpscTheorems.OffsetIsMasked | internal/deque/queue/mpsc.go:311-320 | The offset helpers, remainders in the model, are the masks and shifts of the code for every power-of-two capacity |
| MpscRuns.CreateExactly | internal/deque/queue/mpsc.go:56-72 | A queue is made, without a panic, if and only if the initial capacity is at least two, the maximum at least four, and some power of two is no less than the one and less than twice the other |
| MpscRuns.PushFromNew | internal/deque/queue/mpsc.go:56-188 | After any run from a new queue that has come to rest, TryPush is refused if and only if the queue holds the requested maximum, rounded up to a power of two, and otherwise appends its value |
| MpscRuns.PopFromNew | internal/deque/queue/mpsc.go:190-215 | Likewise TryPop takes the oldest value, and answers nil exactly if there is none |
| MpscRuns.RefusedWhenFull | internal/deque/queue/mpsc.go:119-188 | Over every run: a refused push read the consumer index at a moment at which exactly as many positions as the rounded maximum were reserved and not given back, and was refused on that account |
| MpscRuns.EmptyWhenEmpty | internal/deque/queue/mpsc.go:190-215 | Over every run: a pop that answered nil compared the indices at a moment at which all that was reserved had been taken |
| MpscSafety.StepOk | internal/deque/queue/mpsc.go:119-309 | Every atomic step of a producer or of the consumer, in a push, a pop, a resize or a jump, keeps the invariant on indices, limits, buffers, cells, jumps and links |
| MpscSafety.InitOk | internal/deque/queue/mpsc.go:56-91 | A queue new from two powers of two satisfies the invariant |
| MpscSafety.AllocSizes | internal/deque/queue/mpsc.go:93-101 | After a resize allocated its buffer, the capacity of the last buffer is a power of two within the maximum, and no buffer holds fewer than two elements |
| MpscSafety.GrowLimitOk | internal/deque/queue/mpsc.go:292-300 | The available room a resize computes is positive and the limit it publishes admits no index beyond the bound, so its panic is out of reach |
| MpscSafety.OwnCell | internal/deque/queue/mpsc.go:157-165 | The cell a producer is about to fill is empty, belongs to its index alone and lies in a buffer the consumer has not left |
| MpscSafety.AfterJump | internal/deque/queue/mpsc.go:247-255 | A consumer that has met a jump finds the link to the next buffer in place |
| MpscSafety.FirstStored | internal/deque/queue/mpsc.go:257-274 | The first cell of the next buffer already holds the element the consumer needs next |
| MaintenanceSafety.NoForgottenWrite | cache_impl.go:1439-1579 | Over every run, a task in the buffer whose writer has acted on the drain status is covered: the status asks for another drain, or a drain that has not finished popping is running or handed over. That such a request is answered is MaintenanceTheorems.NothingLeft, and what a write does about it is MaintenanceTheorems.WriteSeesToIt |
| MaintenanceSafety.LockHandover | cache_impl.go:1478-1556 | For inline and asynchronous executors alike: no free mutex is unlocked, every acquisition is released exactly once, and at most one activity is inside maintenance, holding the mutex, with a processing status throughout |
| MaintenanceSafety.Quiescent | cache_impl.go:1439-1556 | When every activity is done the mutex is free, every token was taken, and tasks left in the buffer are announced by the status |
| MaintenanceSafety.StepOk | cache_impl.go:1380-1398 | Every atomic step, those of InvalidateAll and of readers of the policy included, keeps the invariant on lock, tokens, phases and pending writes |
| MaintenanceTheorems.NothingLeft | cache_impl.go:1439-1556 | With the default executor, over every run without InvalidateAll: when all activities are done the buffer is empty, the status idle and the mutex free |
| MaintenanceTheorems.NextCleansUp | cache_impl.go:1439-1556 | After any run whatever that has come to rest, one operation other than InvalidateAll, with anything but InvalidateAll beside and after it, leaves nothing waiting |
| MaintenanceTheorems.WriteSeesToIt | cache_impl.go:1439-1475 | For every executor and over every run: a write is done only after it saw, once its task was pushed, that a drain is under way, or tried the mutex, or took it to drain itself |
| MaintenanceTheorems.EachTaskOnce | cache_impl.go:1422-1437 | Over every run the tasks of the buffer are run once each in the order of their pushes, and a finished write has either pushed its task, once, or run it itself |
| MaintenanceTheorems.InvalidateEmpties | cache_impl.go:1380-1412 | Over every run: InvalidateAll is done only after it found the buffer empty while it held the mutex |
| MaintenanceAlone.OperationAloneOk | cache_impl.go:1422-1579 | After any run that has come to rest with no more tasks waiting than the buffer holds, on any executor: a write, a read, a clean-up or a policy reader that runs alone, its drains inside or beside their schedulers, comes to an end, with all tasks run, nothing waiting and the status idle |
| MaintenanceAlone.LeftBehind | cache_impl.go:1380-1412 | A run of ten steps in which a write meets InvalidateAll holding the mutex, and its task is left waiting with everybody done |
| TimerWheel.Wheel.DeleteExpired | internal/expiration/variable.go:96-143 | Hands over, once each, exactly the scheduled nodes whose deadline has passed and whose bucket belongs to an elapsed tick; for nodes whose deadline was not moved backwards that is every passed deadline as soon as the finest tick advances, and the last-level tick too if the node was filed late; so a node filed before its deadline is handed over by the first call 2^30 nanoseconds after it at the latest. Every other node stays scheduled in exactly one bucket, at the place a new filing would choose if its bucket was swept |
| TimerWheel.Wheel.SweepBucket | internal/expiration/variable.go:113-143 | Emptying a bucket while entries are filed again, possibly in the same bucket, loses none and hands over exactly those that have expired |
| TimerWheel.Wheel.DeleteExpiredFromBucket | internal/expiration/variable.go:113-143 | Sweeps exactly the buckets of the level on which a tick of the interval falls, once each, however often the interval wraps around |
| TimerWheel.Wheel.Add | internal/expiration/variable.go:83-87 | Schedules the node in the one bucket of its deadline and keeps all other buckets |
| TimerWheel.Wheel.Delete | internal/expiration/variable.go:90-94 | Takes a scheduled node out of its bucket, wherever it stands, and does nothing to others |
| TimerWheel.Wheel.FindBucket | internal/expiration/variable.go:69-80 | Finds the bucket of the first level whose span exceeds the unsigned time left |
| TimerWheel.Wheel.constructor | internal/expiration/variable.go:50-66 | An empty wheel with all buckets distinct |
| TimerWheel.FilingSound | internal/expiration/variable.go:69-80 | The place chosen for a deadline has a later tick on a coarse level, an equal or later one on the finest; only a past deadline is filed late |
| TimerWheel.UnsweptSound | internal/expiration/variable.go:96-111 | What is known about an entry in an unswept bucket stays true when time moves on |
| TimerWheel.PassedIsSwept | internal/expiration/variable.go:96-111 | A passed deadline is in a swept bucket if and only if the finest tick advanced and, when filed late, the coarsest one did |
| TimerWheel.LateEntryIsKept | internal/expiration/variable.go:69-80 | A concrete entry added two ticks after its deadline is still in the wheel hours of sweeps later |
| TimerWheel.AllTicks | internal/expiration/variable.go:113-125 | The at most one round of bucket numbers the loop visits is exactly the set of buckets on which the elapsed ticks fall |
| TimerWheel.SpansRoundUp | internal/expiration/variable.go:26-36 | The spans of the levels are the second, the minute, the hour and the day in nanoseconds, rounded up to the next power of two, and four such days |
| TimerWheel.Link | internal/expiration/variable.go:146-152 | Linking appends to the circle and keeps both directions consistent |
| TimerWheel.Unlink | internal/expiration/variable.go:155-162 | Unlinking closes the circle around the node, which may be alone in it, and is harmless for a node in no circle |
| Deque.Linked.PushBack | internal/deque/linked.go:36-47 | Appends to the list |
| Deque.Linked.PushFront | internal/deque/linked.go:73-84 | Prepends to the list |
| Deque.Linked.PopFront | internal/deque/linked.go:86-94 | Takes the first item off the list, if there is one |
| Deque.Linked.UpdateNode | internal/deque/linked.go:49-71 | Replaces the old node in place, and leaves the list alone when the old node is not on it. For one node in both roles the links still spell out a list if and only if the node was not on the list or alone on it; otherwise they spell out none at all |
| Deque.TornByItself | internal/deque/linked.go:49-71 | Three nodes, the middle one put in its own place: its links are gone, its neighbours point at it, and no list is spelled out any more |
| Deque.Linked.NothingFits | internal/deque/linked.go:49-71 | Links torn in this way are those of no list whatever: the walk from the head ends too early |
| Deque.Linked.Delete | internal/deque/linked.go:130-153 | Removes the node if it is on the list, and nothing else |
| Deque.Linked.Contains | internal/deque/linked.go:112-114 | The pointer test is true exactly for the items, for every node that is on this list or on none |
| Deque.Linked.MoveToBack | internal/deque/linked.go:116-121 | The item becomes the last, the others keep their order |
| Deque.Linked.MoveToFront | internal/deque/linked.go:123-128 | The item becomes the first, the others keep their order |
| Policy.Policy.Disjoint | policy.go:217-234 | The three deques, which share one pair of links per node, hold disjoint lists |
| Policy.Policy.Access | policy.go:74-85 | A read moves a linked node to the back of its queue or promotes it, and leaves queues and books alone for a node that is not linked |
| Policy.Policy.ReorderProbation | policy.go:217-234 | A probation node light enough for the protected space is promoted with its weight, others are moved to the back |
| Policy.Policy.Reorder | policy.go:538-542 | Moves a node to the back of its queue only if it is on it |
| Policy.Policy.Add | policy.go:88-119 | Accounts the node; links it only if it is alive, at the front when it exceeds the window, and evicts it when it exceeds the cache; the totals balance afterwards in every case |
| Policy.Policy.Update | policy.go:121-151 | Of two nodes, the new one takes the queue type, place and books of the old one, which dies, and is linked afterwards exactly if the old one was, unless too heavy; the totals balance although the new weight is added last, even when the new node was evicted before that and the subtraction wrapped. One node in both roles dies, its weight is counted once too often so that the totals balance only if it is zero, its queue stays a list if and only if it was not on it or alone on it, and the code panics exactly in the case Stuck |
| Policy.Policy.UpdateItself | policy.go:121-192 | The same statements for one node in both roles: what they do to the books, the queue and the tail |
| Policy.ExcessStays | policy.go:121-151 | A weight counted too often stays in the total through every addition and removal, to the point of an empty cache that is taken for a heavy one |
| Policy.TornByItself | policy.go:121-151 | A cache of two entries whose second one is updated by itself: dead, still counted, its queue no list any more |
| Policy.StuckByItself | policy.go:121-151 | A cache of two entries whose first one is updated by itself: the policy follows a missing tail |
| Policy.Policy.UpdateNode | policy.go:153-165 | For two nodes: the new node replaces the old where that was linked, and only there; the old one's weight has left the totals |
| Policy.Policy.Delete | policy.go:168-179 | Unlinks the node and takes its weight off the books, once, however often it is called |
| Policy.Policy.MakeDead | policy.go:181-192 | A weight leaves the totals exactly when the node was accounted for |
| Policy.Policy.EvictFromWindow | policy.go:241-265 | The oldest window entries with weight move to probation, in order and no more than needed, until the window fits or all were looked at; the first of them is returned |
| Policy.Policy.EvictFromMain | policy.go:267-358 | Terminates and evicts exactly whom the plan names, in its order: the plan made from the queues, the states, the frequencies and the coins at the beginning. Queues and totals stay consistent, the others stay on their queues in their order, each eviction was needed, no evicted cursor is followed, and the total ends within the maximum or no positive weight is left on any queue |
| Policy.Policy.EvictNodes | policy.go:236-239 | The same for the whole eviction round, with the plan made after the window has been relieved |
| Policy.RemainsNext | policy.go:267-358 | Evicting the node at any position of any queue leaves what was there at first, in order, without all that was evicted since |
| Eviction.FairTurn | policy.go:311-356 | Between the oldest victim left and the next candidate the victim goes if it is retired, or if the candidate is alive, fits and is admitted by frequency or by chance; otherwise the candidate goes |
| Policy.RetiredGoFirst | policy.go:325-330 | As long as the oldest entry with weight that is left in probation has been retired, it is the one evicted; so an entry that is alive goes only if that one is alive, or is itself |
| Eviction.ProtectedLast | policy.go:275-292 | Protected entries, and those the window keeps, go only when neither victims nor candidates are left, and then in order |
| Eviction.CandidatesInOrder | policy.go:268-358 | At every turn the candidates still to be looked at are the last ones of those at the beginning: the newcomers of probation, then the window |
| Eviction.PlanEnds | policy.go:271-292 | The plan ends only when the total fits the maximum or nobody is left to choose |
| Policy.Policy.Admit | policy.go:360-373 | A candidate is admitted if it is more frequent than the victim, or, when it is warm, by the toss of a coin |
| Policy.VictimEnters | policy.go:278-291 | A victim cursor that has run off a queue passed only weightless nodes there and may enter the next queue |
| Policy.VictimEvicted | policy.go:309-331 | After the victim is evicted its successor stands at the same position and the candidate cursor is still on its node |
| Policy.BothEvicted | policy.go:317-323 | When both cursors stand on one node, evicting it leaves neither on it |
| Policy.Policy.Climb | policy.go:375-387 | For any adjustment: the oldest protected entries are demoted as long as there are too many; then a positive adjustment moves as much of the protected limit to the window as the entries that fit weigh, with those entries in order, a negative one the reverse, and zero nothing. The sum of the two limits, the difference of the window's limit and total, and the linked nodes are kept; a window limit of at least one stays so |
| Policy.Policy.DemoteFromMainProtected | policy.go:425-447 | The oldest protected entries move to the back of probation, in order: no more than needed, and fewer only if none is left or the threshold is met; their weights leave the total |
| Policy.Policy.IncreaseWindow | policy.go:449-493 | The limits move by the same amount in opposite directions, which is the weight transferred; the window gains, in order, the oldest probation entries and then the oldest protected ones; it stops when the threshold is met or no oldest entry fits what is left of the adjustment |
| Policy.Policy.DecreaseWindow | policy.go:495-529 | The mirror image: the oldest window entries move to probation in order until the threshold is met or the next does not fit, and the limit of the window stays at least one |
| Policy.BalancedAdd | policy.go:88-92 | Adding a weight to the totals of its type, modulo 2^64, balances a new accounted node |
| Policy.BalancedRemove | policy.go:181-192 | Subtracting it balances the node's removal, wrapped or not |
| Policy.BalancedRetype | policy.go:217-234 | Moving it between totals balances a change of type |
| Policy.Policy.TotalsExact | policy.go:88-192 | With at most 2^32 accounted nodes the totals are the sums themselves, not only modulo 2^64 |
| Policy.UpdateAfterEviction | policy.go:121-165 | An update puts its new node on a queue if and only if the old one was on its queue, and otherwise changes no queue at all |
| Policy.Forgotten | policy.go:121-165 | A run that ends there: an entry added, evicted, and only then replaced leaves a node that is alive, accounted for, of positive weight and on no queue |
| Policy.StaysUnlinked | policy.go:217-493 | A read of such a node changes nothing, and the work of the policy on others, in the window, the main queues, or by the climber, does not link it; an eviction round on the main queues does not choose it |
| Policy.StaysUnlinkedByOthers | policy.go:74-151 | Nor does a read, an addition or an update of another node |
| Policy.ExpelledNext | policy.go:241-265 | One step of moving entries out of the window extends the ordered description of what the loop did |
| Policy.RecruitNext | policy.go:459-487 | Taking the oldest entry of probation, or a protected one once none of probation fits, is one step of that order |
| Swar.SearchMisses | internal/hashmap/map.go:612-624 | For every word and tag the search marks every slot with that tag, and nothing outside the slots |
| Swar.EmptySearch | internal/hashmap/map.go:291-298 | The search for free slots marks exactly the slots whose tag has the top bit |
| Swar.FirstMarked | internal/hashmap/map.go:616-618 | The index computed from the trailing zeros is the lowest marked slot |
| Swar.ClearFirst | internal/hashmap/map.go:189-216 | Clearing the lowest bit unmarks that slot alone and makes the word smaller, so the loop visits each marked slot once |
| Swar.ByteSet | internal/hashmap/map.go:626-629 | Setting a byte changes that byte and no other |
| HashMap.Map.constructor | internal/hashmap/map.go:145-180 | A new map is empty, whatever the size hint |
| HashMap.Map.Get | internal/hashmap/map.go:189-216 | The tag-filtered scan returns the entry of the finite map, and nothing exactly if the key is absent |
| HashMap.Map.Probe | internal/hashmap/map.go:197-210 | Within a bucket the filtered scan finds the key if and only if a full scan would |
| HashMap.Map.Compute | internal/hashmap/map.go:225-345 | Calls the function on the present entry and changes its key alone, through in-place update, removal with shrink, insertion, new bucket, or growing and starting over, which terminates |
| HashMap.Map.Resize | internal/hashmap/map.go:363-445 | Growing and shrinking preserve the finite map under the new table's hash function, clearing empties it, and the table length is as promised |
| HashMap.Map.CopyBucket | internal/hashmap/map.go:474-497 | Every entry of a chain gets exactly one slot in the new table, on the chain of its new hash, and is counted |
| HashMap.Map.AppendToBucket | internal/hashmap/map.go:562-581 | Fills exactly one free slot of the chain, in a new bucket if all are full |
| HashMap.Map.Size | internal/hashmap/map.go:557-560 | The striped counters add up to the cardinality of the finite map |
| HashMap.AddSize | internal/hashmap/map.go:583-593 | Whichever stripe is chosen, the sum of the stripes changes by the delta |
| HashMap.Map.Clear | internal/hashmap/map.go:551-554 | Leaves the empty map |
| HashMap.CopiedEntry | internal/hashmap/map.go:474-497 | One copied entry extends the correspondence between the old and the new table |
| HashMap.NotOnChain | internal/hashmap/map.go:189-216 | A key absent from the chain of its hash is absent from the table |
| Sketch.Sketch.Frequency | sketch.go:76-95 | The minimum of the key's four counters: at least the ideal aged count, at most fifteen, zero before the first sizing |
| Sketch.Sketch.Increment | sketch.go:97-133 | Raises each of the four counters that is not full, counts the addition if any was raised, and halves everything exactly when the sample is full; the bound on the counters and the lower estimates survive |
| Sketch.Sketch.IncrementAt | sketch.go:135-143 | One counter grows by one unless it is fifteen; its neighbours in the word are untouched |
| Sketch.Sketch.Reset | sketch.go:145-153 | Every counter is halved on its own, and the subtraction of the rounding loss cannot underflow |
| Sketch.Sketch.Grow | sketch.go:122-133 | From four more counts than the bound allows, one more addition, or the reset it triggers, restores the bound of four times the size plus three |
| Sketch.Sketch.EnsureCapacity | sketch.go:49-70 | A table that is large enough is kept with its estimates; a smaller one is replaced by a zero table with ideal counts zeroed |
| Sketch.CountersApart | sketch.go:76-95 | The four counters of a key lie in bounds and on four different words |
| Sketch.BumpedAllValue | sketch.go:97-133 | Raising a key's four counters adds one, capped at fifteen, to exactly those four |
| Sketch.HalvedTotal | sketch.go:145-153 | Twice the sum after halving plus the number of odd counters is the sum before |
| Nibbles.HalveNibbles | sketch.go:145-153 | Shifting a word and masking halves each of its sixteen counters independently |
| Nibbles.HalveSum | sketch.go:145-153 | The population count of the low bits is what halving the word loses |
| Nibbles.NibbleIncrement | sketch.go:135-143 | Adding a shifted one raises one counter, without carry into the next |
| Nibbles.MaskTest | sketch.go:135-143 | The mask test is true exactly for a full counter |
| SingleFlightSafety.AppliedExactly | singleflight.go:196-221 | Over every run a real call that is through counts as applied if and only if no writer cancelled it and it loaded a value or a definite absence |
| SingleFlightSafety.NoStaleLoad | cache_impl.go:458-484 | If a write, removal or eviction of the key reaches the call map while a call is registered and under way, no later step of that call changes the entries |
| SingleFlightSafety.WriteBeatsEarlierLoad | cache_impl.go:822-855 | A writer that takes the entry's lock while a call is under way keeps every later step of that call from changing the entries |
| SingleFlightSafety.CancelledTooEarly | cache_impl.go:458-471 | A concrete run in which a write takes its cancelling step while no load is registered, a load then registers, the write stores, and the loaded value replaces it |
| SingleFlightSafety.OneCallPerKey | singleflight.go:98-112 | Two unfinished real calls for a key that nobody cancelled are the same call |
| SingleFlightSafety.ReleasedOnce | singleflight.go:114-194 | A real call's waiters are released exactly once, when it is over, after success, error or loader panic; whoever waited returns a finished call for its key |
| SingleFlightSafety.StepOk | singleflight.go:83-221 | Every step of a getter, a writer or a call keeps the invariant on the call map, the locks and the calls |
| SingleFlightTheorems.LoadedExactly | cache_impl.go:822-855 | Over every run a real call that is through stored its value, or removed the entry of its key on a definite absence, in exactly one step, if no writer's cancelling step for the key came while it was under way; otherwise none of its steps changed the entries |
| SingleFlightTheorems.CallEffect | singleflight.go:196-221 | The same for every call, the values of a bulk load that nobody asked for included, which always store; of a call that is not through no step has changed the entries |
| SingleFlightTheorems.WriterEffect | cache_impl.go:458-484 | Over every run a writer that is through put, dropped or kept the entry of its key in exactly one step, and no other step of it changed the entries |
| SingleFlightTheorems.OnlyStores | cache_impl.go:822-855 | Every step of a run that changes the entries is the store of a writer, or of a call that no writer had cancelled |
| SingleFlightTheorems.DoomedExactly | cache_impl.go:458-484 | A call counts as cancelled exactly if a writer's cancelling step for its key met it under way |
| SingleFlightTheorems.HitIsEntry | cache_impl.go:251-284 | The value a getter hits is the entry of its key at the moment it looked; one that goes on to a call found none then, or refreshes |
| SingleFlightTheorems.GetAloneOk | singleflight.go:83-194 | A get of a missing entry alone loads, stores what was loaded, hands out the call, and leaves call map and locks as they were |
| SingleFlightTheorems.WriteAloneOk | cache_impl.go:458-484 | A write alone stores, cancels exactly the calls for its key that are under way, and gives the lock back |
| LossySafety.StoredOnce | internal/lossy/striped.go:71-185 | Over every interleaving, an add that reports success stored its element at exactly one position of one ring; one that failed or met a full ring stored it nowhere. When each answer is given is LossyTheorems.FullWhenFull and LossyAlone.AddAloneOk |
| LossySafety.DeliveredInOrder | internal/lossy/ring.go:80-116 | Each ring delivers a prefix of its reservations in order, holds at most sixteen elements, and no element is ever delivered twice |
| LossySafety.NothingDropped | internal/lossy/striped.go:99-200 | An element added and not delivered is in a slot of a ring of the current array, so growing or attaching drops none |
| LossySafety.ReserveRing | internal/lossy/ring.go:80-93 | A reservation takes a free slot: sixteen positions apart is the closest two elements of one slot can be |
| LossySafety.NewRingOk | internal/lossy/ring.go:71-78 | A new ring is born with its first element published |
| LossySafety.GrownArrays | internal/lossy/striped.go:140-165 | The doubled array shows every ring where the old one did |
| LossySafety.StepOk | internal/lossy/striped.go:71-200 | Every step of an adder or of the drainer keeps the invariant on rings, arrays and the busy flag |
| LossyTheorems.FullWhenFull | internal/lossy/ring.go:80-93 | Over every run: an add that answered Full found sixteen reservations beyond the head it had read before, in the same ring |
| LossyTheorems.FailedAfterRounds | internal/lossy/striped.go:99-185 | Over every run: an add that answered Failed has been through all of its rounds |
| LossyTheorems.ArraysDouble | internal/lossy/striped.go:140-165 | Over every run: the n-th array has 2^n places, the last is the current one, and only one shorter than the limit was ever doubled |
| LossyAlone.AddAloneOk | internal/lossy/striped.go:71-185 | With the spin lock free, an add alone answers Full if and only if its token shows a ring that holds sixteen elements, and changes nothing then; otherwise it answers Success and its element is the last of that ring, or the first of a new one |
| LossyAlone.HeldIsUndelivered | internal/lossy/ring.go:95-122 | While no drain is under way, what a ring holds is what was added and not delivered |
| LossyAlone.DrainAloneOk | internal/lossy/striped.go:187-200 | With no add under way a drain comes to an end and has then delivered everything that was ever added to any ring, in order |
| Deletions.HeardExactlyOnce | cache_impl.go:1202-1305 | In every state: the atomic listener has heard exactly once of a node that left the map and not of others. The deletion listener has heard, or will when the buffer is drained, the same with the same cause, of every node of which nothing spurious was said |
| Deletions.AllHeard | cache_impl.go:1566-1620 | With the buffer drained and nothing spurious said, the deletion listener has heard of exactly the nodes that left, once each |
| Deletions.InMapWhenAlive | cache_impl.go:458-484 | A node is in the map exactly when it is alive, as long as no entry was updated by itself |
| Deletions.ReadExpires | cache_impl.go:328-347 | Reading a live entry makes it expire on the spot if and only if the new time of expiry overflows |
| Deletions.ReadExtends | cache_impl.go:328-347 | A read with a positive duration sets the time of expiry to the sum of time and duration as long as that fits; one without leaves it |
| Deletions.LongestDuration | cache_impl.go:328-347 | The longest duration there is makes a live entry expire long ago |
| Deletions.SpuriousReport | cache_impl.go:429-456 | What was said of an entry that had not left is never made up for: in no continuation, drained or not, do the listeners agree again; they agree if and only if nothing spurious was ever said |
| Deletions.KilledInTheMap | cache_impl.go:429-456 | A run of three steps: an entry is stored, stored again if absent with that duration, and the tasks are run; it is in the map, dead, and reported |
| Deletions.LeaveOk | cache_impl.go:474-484 | A node that leaves the map is retired and has its one atomic event, and no other node is concerned |
| Deletions.Cache.AtomicSet | cache_impl.go:458-471 | The old node retires with one atomic event, a replacement or, if its time had come, an expiration, and the new one takes the key |
| Deletions.Cache.AtomicDelete | cache_impl.go:474-484 | The node retires with one atomic event, an invalidation or, if its time had come, an expiration, and the key is free |
| Deletions.Cache.Set | cache_impl.go:429-456 | The replaced node is reported with the right cause and one report is owed and queued, or made at once when the buffer stays full |
| Deletions.Cache.SetIfAbsent | cache_impl.go:429-456 | Without a live entry it is a write. With one it answers that it stored if and only if the extended time of expiry overflows; then, and only then, an update of the entry by itself is queued or run, and a report of it is made that is never due. A cache free of such reports and updates stays so if and only if this is not the case |
| Deletions.Cache.GetIfPresent | cache_impl.go:251-284 | A hit is a live entry of the map, which then expires after the duration asked for, as long as that fits; a miss, and every other entry, is left as it was |
| Deletions.Cache.Invalidate | cache_impl.go:1188-1243 | Removes the key, reports its node with the right cause, and says whether there was one |
| Deletions.Cache.Compute | cache_impl.go:590-670 | Writing and invalidating act as those operations, cancelling removes an expired entry with cause expiration, and a panic or an unknown answer changes nothing |
| Deletions.Cache.AfterDeleteCall | cache_impl.go:822-855 | What follows the answer that the call is still registered: the loaded value is stored, a definite absence removes the entry, with one report of what leaves; and nothing happens after any other answer. Which answer is given is an input here: SingleFlightSafety.AppliedExactly is about that |
| Deletions.Cache.EvictNode | cache_impl.go:1284-1305 | A node still in the map is reported to both listeners with one cause, overflow or, if its time had come, expiration; one that has left is reported to neither; either way it is dead |
| Deletions.Cache.RunTask | cache_impl.go:1581-1620 | A task pays the report it owes whatever the policy evicts meanwhile; with a size limit the replaced or deleted node is dead afterwards. Only the update of a node by itself kills one that is in the map |
| Deletions.Cache.DrainWriteBuffer | cache_impl.go:1566-1579 | Runs the queued tasks in order up to one more than the buffer's maximum |
| Deletions.Cache.Maintenance | cache_impl.go:1543-1556 | A whole round, with the task of a writer that met a full buffer, leaves nothing owed, and the buffer empty unless it held too much to begin with |
| Deletions.Cache.InvalidateAll | cache_impl.go:1380-1412 | Leaves an empty map and an empty buffer, so every node ever created has been reported |

## Left out

- Memory model: steps are sequentially consistent; cache-line padding, pooling of tasks, unsafe casts and garbage collection are not modelled.
- The generated node variants: one node class stands for all of them.
- Mpsc: indices do not wrap at 2^64, and capacities above 2^31, which round up beyond 32 bits, are excluded; buffers are values named in order of allocation; Size and IsEmpty are not modelled.
- Mpsc, Maintenance, SingleFlight and Lossy are transition systems on values: the fields of the originals are components of the state, and update in place is a new state.
- Maintenance: the policy and the read buffer have no state there; the executor runs everything it is given; Hottest, Coldest and SetMaximum take the lock as the other readers do and are not separate operations.
- SingleFlight: a bulk load is a number of calls completed one by one; fake calls (values returned by a bulk load without being asked for) exist but are outside the theorems, since they never check for cancellation; refresh times are not modelled.
- Lossy: clearing and the length are not modelled; thread tokens and hashing are an arbitrary choice of the slot to try.
- TimerWheel: the clock is monotone and not negative; nodes handed over are collected in a list in place of the callback; the order inside a bucket is part of the model but not of the contract of DeleteExpired.
- Deque: the deque on the expiration links, popping from the back, clearing and iteration.
- Policy: the frequencies and the coins of an eviction round are given functions, so the sketch and the hit counters do not appear; floating point in the climber and in the division of a new maximum is an arbitrary number within its bounds; tasks of one key run in map order.
- Policy.Policy.EvictNode: what the cache's callback does outside the policy (retiring the node, removing it from the map and the wheel, events) is in Deletions and TimerWheel.
- Policy.Policy.Update: after the update of a node by itself nothing more is said about the torn queue than that it is no list; the operations that follow on it are not modelled.
- Policy.Policy.SetMaximumSize: how the new maximum is divided between window and main is left open.
- HashMap: used by one thread; bucket locks, the resize flag, the parallel copy, iteration and growth statistics are not modelled; the `next` pointers of a chain are positions in a sequence; hash functions are arbitrary but fixed per table.
- HashMap.Map.constructor: the floating point load factor in the size hint is exact integer arithmetic.
- Sketch.Sketch.EnsureCapacity: maximum sizes above 2^60 are excluded; there the table could not be allocated.
- Deletions: operations run one after another with maintenance enabled; values, weights, refreshing and loading are absent; events are recorded when they are handed to the executor; the cache is not closed; what the policy does with its queues during a task is in Policy, and a run there ends where that panics.
- Persistence, statistics, logging, options, contexts and the example programs.
