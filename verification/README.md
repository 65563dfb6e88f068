# MnemoKV: a verified model

MnemoKV is an in-memory key-value server with a replicated, automatically
repaired cluster around it. This project models its five hardest parts in Dafny
4.11 and proves what they promise, for all inputs, all runs and all reachable
states. `dafny verify dfyconfig.toml` checks everything.

## What is modelled

**Sorted sets** (`SkipList.dfy`, `ZSet.dfy`, `Floats.dfy`, `Powers.dfy`). The skip list is a heap structure of
nodes with arrays of forward links and one backward link. Its validity says where
every link at every level must lead; insertion, deletion and range search keep
it for every choice of levels. A sorted set joins the list with a hash index, and
both always stand for the same map. Scores are the 64 bits of a float64 that is
not a NaN; they are ordered as the numbers that the bits stand for, so the two zeros
compare equal.

**Control plane** (`Plans`, `Views`, `Sorting`, `Rebalance`, `Failover`, `Fsm`,
`FsmLog`, `Executor`). The two planners turn a view of the cluster into a list of steps. A
plan is judged by replaying it: a table of slots says who owns each slot and which
nodes hold a full copy. The executor runs the active plan of a replicated state
machine, whose state is told from its log, and may be cut off before a call, after its effect or before it is marked
done, as often as one likes.

**Replication** (`Slots`, `Metadata`, `SlotMap`, `Ownership`, `DurabilityCore`,
`Durability`, `LateWrites`, `Scenarios`, `Trios`, `Replication`). `Ownership` is a
transition system of several nodes with their own slot maps and broadcasts that are
lost, repeated, delayed and reordered. `Durability` adds, for one slot, writes in
flight, lost records and full-slot transfers, in runs of three kinds: orderly ones, in
which durability holds, those that also lose answers, and unruly ones in which nothing
is taken for granted. `LateWrites` says, for all of them, which writes are acknowledged
after their term has ended, and `Scenarios` has runs of three nodes.
`Replication` looks at one pair of nodes with a fixed assignment, and at what a lost
answer or a broadcast does to it.

**Storage and admission** (`Values`, `Striping`, `Store`, `ListValue`, `Admission`,
`Expiry`, `Crowding`, `Effects`). The store is a class with stripes and a wrapping byte counter; a ghost
field is the one map the stripes stand for. Admission plans the growth of a write,
evicts other keys until it fits, replicates and executes, with the clock going on
in between. `Effects` says key by key what each command does and answers, and exactly
when it is performed.

**Codecs** (`Decimal`, `Payload`, `Snapshot`, `Wire`, `Replies`, `Requests`, `Samples`).
Snapshot payloads, restoration and slot transfer, and requests and replies of the
Redis serialization protocol, version 2 (its sections on arrays, bulk strings,
simple strings, simple errors and integers).

Surroundings become parameters: clock readings, random levels, the eviction
policy's choices, the fate of messages, calls and commits, and the hash function,
which is an arbitrary function into 32 bits. Every locked section of the source is
one step, save where "Left out" says that two are taken together.

## Findings

Where the code does not meet a property on all inputs, the exact condition is
proved.

- A replica tells records apart by sequence number alone. Acknowledged commands are
  the replica's if and only if, after a command whose answer was lost, that same
  command is repeated before anything else is acknowledged
  (`Replication.LogsAgreeExactly`, `Replication.LostAnswerLosesNextWrite`).
- A broadcast about another slot can set back a leader's counter. The next write is
  then applied if and only if the sender knew the leader's counter; otherwise exactly
  as many writes as the counter lost are acknowledged and never applied
  (`Replication.BroadcastExactly`, `Replication.BroadcastRewindsCounter`).
- `Promote` does not look at readiness. Promotions keep every acknowledged write, from
  every reachable state, if and only if they are of replicas marked ready and the runs
  are orderly: no answer is lost, earlier promotions are of ready replicas, and transfers
  start only while the replica is not ready (`Scenarios.PromotionsKeepExactly`,
  `Scenarios.UnreadyPromotionLoses`). Acknowledged writes survive every run if and only
  if the runs are orderly; lost answers alone break it (`Scenarios.SurvivesExactly`).
- A write can be acknowledged in a term that has already ended: its replica answers
  the record, is promoted, and the old leader then commits. If an answer was lost
  before, the write may be one that the replica never applied. In every state of every
  run, unruly ones included, a write of an ended term can still be acknowledged, now or
  later, if and only if its replica has answered it, its sequence is the leader's next,
  and its leader has not yet heard of the end; after an assignment by the leader itself
  none can (`LateWrites.LateExactly`, `LateWrites.AssignmentEndsAtOnce`,
  `Scenarios.PromotionLeavesOneLate`).
- The rebalancer reaches its threshold, given enough moves, if and only if the
  threshold is positive or the slots divide evenly (`Rebalance.PlanRebalance`).
- A list or sorted set comes back from its payload if and only if it is empty or its
  last element is not the empty string (`Payloads.ListRoundTrip`,
  `Payloads.ZSetRoundTrip`).
- A deletion counts visible keys if and only if it names no key that has expired but
  has not been touched since (`Expiry.DeleteCountsExactly`).
- Expired entries take up room under a memory limit, and the eviction policies do not
  sample them, so that a write may be refused although nothing is visible. What is left
  visible, the outcome and the reply of a command are those without the expired entries,
  whatever visible keys the policy picks, if and only if the command is no deletion that
  names one of them and no visible keys can be deleted that make room enough without
  them and not enough with them (`Crowding.UnseenExactly`,
  `Crowding.UnseenWithoutEviction`, `Crowding.ExpiredCrowdsOut`).
- The memory limit is kept by every command on every dataset if and only if it is
  neither 0, which means that there is none, nor 2^64 - 1, where saturation hides an
  overshoot (`Admission.LimitKeptExactly`, `Admission.TopLimitOvershoots`).
- A frame survives the wire unchanged if and only if its texts have no line breaks,
  its error prefix is neither empty nor has a space, and its null frames are empty
  (`Replies.FrameRoundTrip`).

## Model

| member | source | states |
|---|---|---|
| SkipLists.SkipList.constructor | internal/engine/skiplist.go:21-24 | a valid empty list: every forward link of the head is nil |
| SkipLists.SkipList.Search | internal/engine/skiplist.go:32-41 | at every level in use, the last node of that level before the searched pair |
| SkipLists.SkipList.Insert | internal/engine/skiplist.go:28-70 | with any level from 1 to 32, the list holds the old pairs with the new one at its place in (score, member) order, and every forward link, backward link, the level and the length are right again |
| SkipLists.SkipList.Delete | internal/engine/skiplist.go:72-105 | true exactly if a matching pair is there; then it alone is gone, all links are right, and the level shrinks to the tallest node left |
| SkipLists.SkipList.Range | internal/engine/skiplist.go:107-142 | exactly the sorted pairs from one rank up to another, in order, where each pair has its position and its negative distance from the end as ranks; nil is never met |
| SkipLists.SlicePositions | internal/engine/skiplist.go:111-125 | between two positions everything; a negative rank is the position that far from the end; a start before the first is the first, a stop beyond the last is the last; all else is empty |
| SkipLists.BeforeIsByValue | internal/engine/skiplist.go:34-36 | the order of the list is that of the numbers the scores stand for, and then of the bytes of the members |
| Floats.RankIsValue | internal/engine/skiplist.go:34-36 | scores compare as the float64 numbers that their bits encode, negative ones, subnormal ones and infinities included |
| Ordering.LexExactly | internal/engine/skiplist.go:34-36 | one string comes before another exactly if it is a proper beginning of it or is smaller where they first differ |
| ZSets.ZSet.constructor | internal/engine/zset_value.go:16-21 | an empty index and an empty list that agree |
| ZSets.ZSet.Add | internal/engine/zset_value.go:24-41 | index and list agree afterwards on the updated map; true exactly for a new member; an equal score is not rewritten |
| ZSets.ZSet.Range | internal/engine/zset_value.go:44-54 | exactly the pairs between two ranks of the one strictly sorted list of the index; from 0 to -1 all of them |
| ZSets.ZSet.Card | internal/engine/zset_value.go:56-60 | the length of the list is the number of members in the index |
| ZSets.Canonical | internal/engine/zset_value.go:10-21 | an index determines its ordered list: two strictly sorted lists that agree with it are equal |
| Plans.PrefixSafe | internal/controller/planner.go:131-137 | any prefix of a replayable plan leaves every slot led by a node with its data, leader and replica different, and the next promotion aimed at a ready replica |
| Rebalance.CountExtremes | internal/controller/planner.go:175-185 | the first and the last node by load and then by name, and their difference |
| Rebalance.FindLeaderMove | internal/controller/planner.go:187-194 | the first slot whose leader may move, or -1 exactly if there is none |
| Rebalance.FindReplicaMove | internal/controller/planner.go:196-203 | the first slot whose replica may move, or -1 exactly if there is none |
| Rebalance.StuckMeansClose | internal/controller/planner.go:117-126 | if the fullest node has no slot left to move, it has only received leaders, and then leader counts differ by at most one |
| Rebalance.MoveLeaders | internal/controller/planner.go:117-146 | every move was due: with the skew above the threshold, the first slot not yet moved goes from the fullest node to the emptiest; the steps replay to the tracked placement, the extremes close in, and the loop goes on while a move is due and the cap allows |
| Rebalance.MoveReplicas | internal/controller/planner.go:147-167 | the same for replicas, with the slots moved being exactly those whose replica differs from the start of the loop; no leader moves |
| Rebalance.DueUnique | internal/controller/planner.go:175-203 | at most one move is due at a time |
| Rebalance.EvenExactly | internal/controller/planner.go:117-122 | once leader counts differ by at most one, they are all equal exactly if the nodes divide the slots |
| Rebalance.Survey | internal/controller/planner.go:96-112 | a start exactly for views whose slots all have two ready copies on usable nodes, with the counts of every node right |
| Rebalance.SteadyExactly | internal/controller/planner.go:96-112 | nothing is moved unless every slot is ready on two different nodes that are reachable, eligible and not suspected |
| Rebalance.PlanRebalance | internal/controller/planner.go:79-173 | a plan only for steady views of two or more usable nodes; it consists of the moves that are due, replays to the tracked placement, whose counts are the tracked counts, narrows the leader counts, blocks the slots in the order it moves them, and with enough moves ends within the threshold exactly if that is positive or the slots divide evenly |
| Rebalance.RebalanceIsDetermined | internal/controller/planner.go:113-173 | view, nodes, threshold and cap determine the steps, the placement and the blocked slots |
| Rebalance.NoPlanMeansSettled | internal/controller/planner.go:168-170 | without a plan leader counts are within the threshold, and replica counts are or no replica may move |
| Rebalance.RebalanceIsSafe | internal/controller/planner.go:131-167 | from any table of a steady view, every prefix of the rebalancing replays and leaves every slot led by a node with its data, and the next step applies |
| Failover.LeastLoadedEligible | internal/controller/planner.go:205-222 | the usable node with the least load, ties by name, other than the excluded one |
| Failover.PlanSlots | internal/controller/planner.go:32-60 | the loop over the sorted slots computes the specified draft, which consists of what each slot needs |
| Failover.PlanFailover | internal/controller/planner.go:16-68 | slot by slot in number order: nothing while both copies are available, a synchronisation, a new replica on the lightest node, a promotion with one, or a mark; none exactly if there is nothing to do |
| Failover.TargetsAreLightest | internal/controller/planner.go:19-22 | every new replica goes to the reachable, eligible and unsuspected node, other than the slot's leader at that point, with the fewest leader and replica slots and replicas given to it earlier in the plan, ties by name |
| Failover.QuietWhileAvailable | internal/controller/topology.go:38-63 | while all slots have two synchronised copies on reachable and eligible nodes, suspected or not, there is no step |
| Views.NodesByState | internal/controller/planner.go:224-232 | a suspected node is neither usable nor failed though its data is available; any other is usable exactly if it is reachable and eligible, and failed otherwise |
| Failover.PlanIsDeterministic | internal/controller/planner.go:15-68 | views with the same nodes and the same slots in any order get the same plan |
| Failover.FailoverRecovers | internal/controller/planner.go:32-60 | the plan can be replayed; a slot ends with an available leader and a different, ready, available replica, both with its data, exactly if it was repairable; one with a surviving copy gets an available leader with its data; one without is left as it is |
| Failover.TwoNodesRepair | internal/controller/topology.go:38-63 | with two usable nodes a slot can be repaired exactly if a copy survives |
| Failover.UnrecoverableExactly | internal/controller/planner.go:56-59 | the unrecoverable slots are exactly those without a surviving copy, and no step changes who owns them |
| Failover.PlanBlocksPromoted | internal/controller/planner.go:34-37 | the slots whose writes are blocked are exactly those that get a new leader |
| Fsm.FSM.Apply | internal/controller/fsm.go:24-49 | a committed entry changes the state as specified, a refused one not at all |
| Fsm.FSM.UpdatePlanStatus | internal/controller/fsm.go:135-157 | the loop finds the status of the first step that is not done |
| Fsm.PlanSurvivesLog | internal/controller/fsm.go:24-133 | over any stretch of the log that does not propose or end a plan, the active plan stays, exactly the steps reported done are added to those that are, and no lost slot is forgotten |
| FsmLog.AcceptedExactly | internal/controller/fsm.go:51-133 | only these are refused: commands about a plan that is not active, a step it does not have or a nameless successor, and admissions of nobody |
| FsmLog.ViewIsLast | internal/controller/fsm.go:53-54 | after a log the view is that of its last observation, or the former one |
| FsmLog.LossIsLast | internal/controller/fsm.go:111-119 | a slot's record of loss is the last one in the log, within a command too, or the former one |
| FsmLog.AdmissionIsLast | internal/controller/fsm.go:120-129 | a returning node is admitted or not as its last admission in the log says, or as before |
| FsmLog.IndexIsLast | internal/controller/fsm.go:33-36 | the control index is the place of the last accepted command, and if none is accepted nothing changes |
| FsmLog.CompletionIsLast | internal/controller/fsm.go:80-93 | the last completed plan is that of the last accepted completion |
| FsmLog.RebalanceIsLast | internal/controller/fsm.go:37-39 | the last rebalancing is the one last completed, with its epoch and its place in the log |
| FsmLog.ProposedIsActive | internal/controller/fsm.go:55-110 | a plan proposed or put in the place of another is active until another is or it is completed, with the steps reported done since |
| FsmLog.CompletedIsGone | internal/controller/fsm.go:80-93 | after a completion there is no active plan until one is proposed |
| FsmLog.StatusIsTold | internal/controller/fsm.go:135-157 | in every state of a log, with a rebalancing active the status says so, and with a recovery what its first step that is not done is about |
| Executor.EffectIsFinal | internal/controller/executor.go:276-291 | a call that has taken effect cannot take effect again |
| Executor.Executor.ExecuteTopologyStep | internal/controller/executor.go:134-189 | whatever fails, the plan stays where an uninterrupted run passes; success means the step is reached; without failures an achievable step succeeds |
| Executor.Executor.Record | internal/controller/executor.go:97-108 | a slot without a copy is recorded once, with its last known owners, and nothing else moves |
| Executor.RecordNamesOwners | internal/controller/executor.go:312-321 | the record names the leader and the replica of the first observed slot with the number, or nobody |
| Executor.Executor.ExecuteOnce | internal/controller/executor.go:79-132 | however it is interrupted, and whatever others get committed between its steps, the plan stays resumable; when its completion is committed, no call has taken effect twice and the rows are those of one uninterrupted run; without failures it completes |
| Executor.Executor.ExecuteRepeatedly | internal/controller/executor.go:64-132 | the same after any number of interrupted passes with commands of others committed between and during them |
| Executor.ExecutionIsReplay | internal/controller/executor.go:140-189 | executing a replayable plan gives exactly the ownership its replay gives |
| Executor.ReplayableIsAchievable | internal/controller/executor.go:276-291 | every step of a replayable plan leaves the postcondition the executor waits for |
| SlotMaps.Allocate | internal/cluster/metadata.go:63-93 | one slot per number, laid out over the sorted peers; without peers no slots |
| SlotMaps.AllocationIsBalanced | internal/cluster/metadata.go:64-91 | leader counts differ by at most one; every slot has its number, a listed leader and, with two or more peers, a different listed replica |
| SlotMaps.AllocationIsRing | internal/cluster/metadata.go:74-91 | the slots are dealt out in runs in the order of the peers, the first ones getting one more, each followed by the next peer around the ring |
| SlotMaps.AllocationIgnoresOrder | internal/cluster/metadata.go:58-63 | the layout is the same for every order of the configured peers |
| SlotMaps.SlotMap.constructor | internal/cluster/metadata.go:57-93 | the first version, with the balanced layout over the sorted peers; outside a cluster and without slots no peers and an empty map |
| SlotMaps.SlotMap.Prepare | internal/cluster/metadata.go:133-147 | the next sequence, only at the leader and only while its replica is ready |
| SlotMaps.SlotMap.CommitLeaderSequence | internal/cluster/metadata.go:149-165 | advances both counters only for the leader, in the term, by one; otherwise nothing changes |
| SlotMaps.SlotMap.ValidateReplication | internal/cluster/metadata.go:167-187 | duplicate, next, gap, stale or foreign |
| SlotMaps.SlotMap.CommitReplicaSequence | internal/cluster/metadata.go:189-207 | advances the applied counter only at the replica, in the term, by one |
| SlotMaps.SlotMap.PromoteReplica | internal/cluster/metadata.go:209-227 | the replica leads alone in a new term and a new version |
| SlotMaps.SlotMap.AssignReplica | internal/cluster/metadata.go:229-249 | a known node other than the leader becomes the unready replica in a new term and version |
| SlotMaps.SlotMap.MarkReplicaReady | internal/cluster/metadata.go:251-266 | the leader's replica becomes ready in the same term, in a new version |
| SlotMaps.SlotMap.Apply | internal/cluster/metadata.go:268-301 | only a newer valid map is taken (an equal one on restore), keeping the receiver's applied counter within a term |
| Metadata.RestoreIsWhole | internal/cluster/metadata.go:272-301 | a persisted map comes back whole, counters included, also at the version the node has, where a broadcast is refused |
| Metadata.BroadcastMerges | internal/cluster/metadata.go:289-299 | owners, terms and leader sequences are the sender's; within a term the applied counter is the receiver's |
| SlotMaps.SlotMap.SetApplied | internal/cluster/metadata.go:334-347 | the replica's counters become the transferred sequence in the same term |
| Ownership.PerformKeepsInv | internal/cluster/metadata.go:149-301 | every action of every node keeps: each map in use or in flight is the table of its version, terms succeed one another, and an ended term is known to have ended by its leader or its replica |
| Ownership.RunsKeepInv | internal/cluster/manager.go:143-208 | so does every run of actions and deliveries |
| Ownership.OneTablePerVersion | internal/controller/executor.go:140-173 | in every state of every run, nodes at one version have one ownership table, terms never fall as versions rise, and a term has one leader and one replica |
| Ownership.KnowsLasts | internal/cluster/metadata.go:276-301 | a node that is past a term stays past it over every run |
| Ownership.EndedTermsAreRefused | internal/cluster/metadata.go:149-187 | from every state of every run in which some node is past a term, and for any two continuations, a write stamped with the term is refused by its replica after the one or by its leader's commit after the other |
| Ownership.AssignmentEndsTerm | internal/cluster/metadata.go:229-249 | for any number of slots and over every run after an assignment, its leader refuses to commit a write stamped with the former term |
| DurabilityCore.ApplyRecordKeeps | internal/cluster/manager.go:117-141 | a record applied at a replica, current or stale, keeps every acknowledged write where it is needed |
| DurabilityCore.FinishKeeps | internal/cluster/replicator.go:45-49 | a write the leader can still commit is held by the replica it needs, or by both owners of the newest term |
| DurabilityCore.RestoreKeeps | internal/cluster/repair.go:68-102 | replacing the target's copy of the slot loses no acknowledged write |
| DurabilityCore.ReadyKeeps | internal/cluster/metadata.go:251-266 | a replica becomes ready only level with its leader and with its data |
| DurabilityCore.PromoteKeeps | internal/cluster/metadata.go:209-227 | promoting a ready replica keeps every acknowledged write and every stale write refused |
| DurabilityCore.AssignKeeps | internal/cluster/metadata.go:229-249 | a new, unready replica keeps every acknowledged write at the leader |
| DurabilityCore.TakeKeeps | internal/cluster/metadata.go:276-301 | taking over any newer recorded map keeps the invariant |
| Durability.NextKeepsInv | internal/cluster/replicator.go:27-50 | every event of an orderly run, from preparation to acknowledgement, promotion, assignment, broadcast and transfer, keeps the invariant |
| Durability.AcknowledgedWritesSurvive | internal/engine/admission.go:44-50 | in every state of every orderly run, every acknowledged write is held by the newest leader, and by its replica too while that may be promoted |
| LateWrites.EntersByAcknowledgement | internal/cluster/replicator.go:45-49 | a write that becomes acknowledged in a run of any kind does so by the commit of an answered record |
| LateWrites.LateExactly | internal/cluster/replicator.go:27-50 | in every state of every run of each kind, a write of an ended term can be acknowledged by some continuation exactly if its replica has answered it, its sequence is the leader's next and its leader has not heard of the end |
| LateWrites.AssignmentEndsAtOnce | internal/cluster/metadata.go:229-249 | once a leader has assigned another replica, no continuation of any kind acknowledges a write of the former term |
| Scenarios.PromotionLeavesOneLate | internal/cluster/metadata.go:209-227 | a run in which a write is acknowledged in its term after the promotion of its replica has ended it; after a lost answer, one the replica does not have |
| Scenarios.UnreadyPromotionLoses | internal/cluster/metadata.go:209-227 | a run to an acknowledged write and a promotion the metadata allows, after which the newest leader does not hold the write |
| Scenarios.SurvivesExactly | internal/cluster/metadata.go:180-182 | every acknowledged write is safe in every state of every run exactly if the runs are orderly; runs that lose answers break it |
| Scenarios.PromotionsKeepExactly | internal/cluster/metadata.go:209-227 | promotions keep every acknowledged write from every reachable state exactly if they are of ready replicas and the runs are orderly |
| Replication.Replica.ApplyReplication | internal/cluster/manager.go:117-141 | refuses, recognises a duplicate by sequence, or applies and commits |
| Replication.Replicator.Replicate | internal/cluster/replicator.go:27-50 | one attempt: true exactly if the leader has executed the command, and then both counters have moved as specified |
| Replication.RunKeepsLevel | internal/cluster/metadata.go:133-207 | whatever is lost in a run, leader sequence <= replica applied <= leader sequence + 1; one command per sequence, no gap, nothing taken back |
| Replication.LogsAgreeExactly | internal/cluster/metadata.go:180-182 | the executed commands are a prefix of the applied ones exactly if unanswered commands are repeated before anything else is acknowledged |
| Replication.LostAnswerLosesNextWrite | internal/cluster/metadata.go:180-182 | after a lost answer another command is acknowledged without being applied |
| Replication.BroadcastExactly | internal/cluster/metadata.go:292-299 | after a newer map in the same term the leader's next record is applied, a duplicate or a gap exactly as the sender's counter equals, is below or is above its own; of the writes that follow, exactly the first ones up to the difference are acknowledged and never applied, or none is acknowledged |
| Replication.BroadcastRewindsCounter | internal/cluster/metadata.go:292-299 | a run of three nodes in which a leader loses count of a write it has acknowledged and acknowledges the next one without its replica applying it |
| Striping.NextPowerOfTwo | internal/engine/store.go:370-376 | the least power of two that is not below n |
| Striping.MaskIsModulo | internal/engine/store.go:55-63 | masking with one less than a power of two is the remainder |
| Striping.AdjustFollows | internal/engine/store.go:68-78 | adding a two's complement keeps the counter equal to the exact sum modulo 2^64 |
| Stores.Store.constructor | internal/engine/store.go:28-52 | an empty store with the requested number of stripes, at least one |
| Stores.Store.StripeFor | internal/engine/store.go:55-63 | with mask or remainder, the one stripe the key belongs to |
| Stores.Store.Erase | internal/engine/store.go:206-218 | the key is gone from its stripe and its bytes from the counter |
| Stores.Store.Write | internal/engine/store.go:185-193 | the key is in its stripe only, and the counter is the wrapped sum of all sizes |
| Stores.Store.Get | internal/engine/store.go:95-115 | the entry unless it is absent or expired; an expired one is removed and refunded |
| Stores.Store.SetString | internal/engine/store.go:152-195 | writes under the condition, on what is alive, and keeps the accounting |
| Stores.Store.DeleteWithSize | internal/engine/store.go:206-218 | removes the key and reports the bytes it was charged for |
| Stores.Store.Flush | internal/engine/store.go:229-241 | leaves nothing, a counter of zero modulo 2^64, and reports how many there were |
| Stores.Store.IncrementBy | internal/engine/store.go:280-340 | adds to a canonical int64, keeps the expiry, refuses other types, non-integers and overflow |
| Stores.Store.SetExpireAt | internal/engine/store.go:344-361 | changes the expiry of a live key only |
| Stores.Store.ListPush | internal/engine/list_ops.go:85-138 | the pushed list under its key, charged for every element |
| Stores.Store.ListPop | internal/engine/list_ops.go:141-182 | takes an end element; an emptied list disappears |
| Stores.Store.ZSetAdd | internal/engine/zset_ops.go:138-191 | the updated index under its key, charged for every member; replies with the number of new members |
| Stores.Store.ReplaceAll | internal/engine/snapshot.go:108-126 | exactly the given entries, each in its own stripe, with their total |
| Stores.AddedAreNew | internal/engine/zset_ops.go:157-162 | the additions counted are the distinct members that were not there |
| Stores.ZSetEntrySize | internal/engine/zset_value.go:71-79 | visiting the members in any order adds up the same charge |
| Decimal.ParsesExactly | internal/engine/string_ops.go:130-157 | a string parses to v exactly if v is an int64 and the string is its one canonical form |
| ListValues.ListValue.constructor | internal/engine/list_value.go:18-20 | an empty list |
| ListValues.ListValue.LPush | internal/engine/list_value.go:28-44 | the values reversed before the old ones, linked both ways, with the right length |
| ListValues.ListValue.RPush | internal/engine/list_value.go:46-62 | the values after the old ones, linked both ways, with the right length |
| ListValues.ListValue.LPop | internal/engine/list_value.go:64-79 | takes the first value, none exactly from an empty list |
| ListValues.ListValue.RPop | internal/engine/list_value.go:81-96 | takes the last value, none exactly from an empty list |
| ListValues.ListValue.EntrySize | internal/engine/list_value.go:106-117 | following the links from the head adds up the charge of the whole sequence |
| Admission.PlanBoundsGrowth | internal/engine/admission.go:72-224 | the planned growth bounds the real one for SET, INCR, LPUSH, RPUSH and ZADD, whether or not the key expires in between |
| Admission.FreedMakesRoom | internal/engine/admission.go:226-272 | eviction never touches the key it makes room for, and ends with the room or without admission |
| Admission.CommandKeepsLimit | internal/engine/admission.go:21-55 | a command leaves a dataset within the limit within the limit, whatever victims, hooks and clock do |
| Admission.RunKeepsLimit | internal/engine/admission.go:21-55 | so does every run of commands, and the wrapping counter is the exact sum throughout |
| Admission.TopLimitOvershoots | internal/engine/admission.go:293-298 | at a limit of 2^64 - 1 a push of one empty element onto a list 47 bytes below it is planned at the limit, admitted, and exceeds it |
| Admission.LimitKeptExactly | internal/engine/admission.go:21-55 | every command keeps every exactly charged dataset within the limit exactly if the limit is neither 0 nor 2^64 - 1 |
| Admission.PushedListBytes | internal/engine/admission.go:285-291 | the saturated sum of all node sizes |
| Admission.AddedBytes | internal/engine/admission.go:197-210 | the saturated charge of the distinct members that are not there yet |
| Admission.Engine.PlanSet | internal/engine/admission.go:72-101 | the planned size of the string, or a reply already known from the condition |
| Admission.Engine.PlanIncr | internal/engine/admission.go:103-139 | the planned size of the next number, or a reply already known |
| Admission.Engine.PlanPush | internal/engine/admission.go:141-169 | the planned saturated size of the longer list, or a type error |
| Admission.Engine.PlanZAdd | internal/engine/admission.go:171-224 | the planned saturated size of the larger sorted set, or a type error |
| Admission.Engine.PlanAdmission | internal/engine/admission.go:57-70 | the plan and the purge of a planned key, as specified on the one dictionary |
| Admission.Engine.EvictAll | internal/engine/admission.go:245-266 | deletes the victims but the written key, stops at an unreplicated one, and reports progress exactly if something went |
| Admission.Engine.FreeForAdmission | internal/engine/admission.go:226-272 | at most 64 passes, each ending in room, no victims, no progress or a failed hook, as specified |
| Admission.Engine.ExecuteWithAdmission | internal/engine/admission.go:21-55 | plan, refuse or make room, replicate, execute: the specified outcome and answer |
| Admission.Engine.Execute | internal/engine/engine.go:65-76 | the specified outcome on the one dictionary, about which `Effects` tells what it did; from within the limit the counter is the exact sum and within the limit |
| Effects.OneKeyIsDone | internal/engine/executor.go:56-90 | what SET, INCR, LPUSH, RPUSH, ZADD, EXPIRE, LPOP, RPOP and reads leave under their key and answer, for every value and condition they can find there |
| Effects.DelIsDone | internal/engine/executor.go:56-57 | no named key is left, no other is touched, and each that was there is counted once |
| Effects.PerformedDoes | internal/engine/admission.go:50-54 | a performed command has done that to what it found, and told so; every other key is as it was or evicted |
| Effects.PerformedDeletes | internal/engine/admission.go:50-54 | the same of deletions and flushes |
| Effects.OtherwiseNothing | internal/engine/admission.go:25-48 | a command that is not performed changes nothing but an expired key and evicted ones; a reply without a write is the one for what is found |
| Effects.PerformedExactly | internal/engine/admission.go:21-55 | performed is exactly a read, and a well-formed command that has something to write, fits and is replicated |
| Effects.PlanIsExact | internal/engine/admission.go:72-224 | the planned size is that of the entry the command would leave, up to 2^64 - 1 |
| Effects.FreedExactly | internal/engine/admission.go:226-272 | room is found exactly if it is there after fewer than 64 complete passes that each deleted something, and at the first such point |
| Expiry.ExpiryIsUnseen | internal/engine/store.go:95-115 | execution, apart from admission, leaves behind what it would if expired entries vanished the moment they expire, and answers the same exactly if it is not a deletion that names one |
| Crowding.UnseenExactly | internal/engine/admission.go:226-272 | outcome, reply and visible data of the whole command path are the same with and without the expired entries, for every choice of visible victims, exactly if no deletion of visible keys makes room in the one case only and the command is no deletion that names an expired key |
| Crowding.UnseenWithoutEviction | internal/engine/admission.go:233-236 | without an eviction policy, exactly if the expired entries do not take up the room the write needs and no performed deletion counts one |
| Crowding.RoomMeansUnseen | internal/engine/admission.go:33-41 | for all victims: without a limit, without growth, beyond the limit, or with room enough already, the expired entries show exactly if a performed deletion counts one |
| Crowding.ExpiredCrowdsOut | internal/engine/store.go:378-402 | a write that is refused for want of memory although nothing is visible |
| Expiry.DeleteCountsExactly | internal/engine/store.go:206-218 | a deletion reports the visible keys exactly if it names no expired one, and otherwise more |
| Payloads.ReadsExactly | internal/engine/snapshot.go:207-230 | a payload is accepted exactly if it is the encoding of its elements and does not end in an empty body |
| Payloads.ListRoundTrip | internal/engine/snapshot.go:189-230 | bytes decode to a list exactly if they encode it and it is empty or ends in a non-empty element |
| Payloads.ZSetRoundTrip | internal/engine/snapshot.go:232-279 | the payload of a sorted set decodes to it exactly if it is empty or its last member is not the empty string |
| Payloads.EntriesRoundTrip | internal/engine/snapshot.go:250-279 | bytes decode to scored entries exactly if they encode them and do not end in an empty member; NaN patterns are refused |
| Payloads.ReadLengthPrefixed | internal/engine/snapshot.go:281-294 | reads one body, fails on a short input and on any read at its end |
| Payloads.DecodeListValue | internal/engine/snapshot.go:207-230 | the reader's loop computes the specified decoding |
| Payloads.DecodeZSetValue | internal/engine/snapshot.go:250-279 | the reader's loop, adding members one by one, computes the specified decoding |
| Payloads.EncodeListValue | internal/engine/snapshot.go:189-205 | the writer's loop computes the specified encoding |
| Payloads.EncodeZSetValue | internal/engine/snapshot.go:232-248 | the writer's loop computes the specified encoding |
| Snapshots.LoadedExactly | internal/engine/snapshot.go:24-49 | loading items of a dataset gives its unexpired entries, and fails exactly if one does not come back or the total overflows |
| Snapshots.RestoreReproduces | internal/engine/snapshot.go:24-56 | restoring a snapshot reproduces the dataset as it looks to the later of the two clocks, and its total, exactly if every value comes back and they fit the limit |
| Snapshots.EncodeSnapshotValue | internal/engine/snapshot.go:128-151 | the payload of a value, sorted sets in their one order |
| Snapshots.DecodeSnapshotEntry | internal/engine/snapshot.go:153-187 | decodes a value of a known type whose declared size is its charge, and nothing else |
| Snapshots.SnapshotEntries | internal/engine/snapshot.go:75-106 | exactly the unexpired entries, once each, sorted by key; fails only on a value that cannot be written down |
| Snapshots.RestoreSnapshotEntries | internal/engine/snapshot.go:24-56 | all or nothing: the specified dataset with its exact total, or no change |
| Snapshots.SlotTransferExactly | internal/cluster/repair.go:88-101 | the combined entries restore to the leader's of this slot and the replica's of all others, and fail exactly if one does not come back or they do not fit |
| Snapshots.SlotTransferParts | internal/cluster/repair.go:88-101 | the outcome is the leader's live entries inside the slot and the replica's own outside, each at the later of the clocks it passed |
| Snapshots.CountersAgree | internal/cluster/metadata.go:334-347 | once both sides have set their counters, the leader's next record is the one the replica applies next |
| Snapshots.ApplyShardSnapshot | internal/cluster/repair.go:68-102 | replaces the slot's entries and counters, or has an objection and changes nothing |
| Snapshots.SyncReplica | internal/cluster/repair.go:21-66 | whatever the two clocks read, success means the replica has the leader's live entries of the slot and its own of all others, equal counters, and readiness; failure has a stated reason and marks nothing |
| Wire.LineReads | internal/cluster/proxy.go:168-176 | a written line is read back with its prefix, its text and what follows |
| Replies.ReadsWritten | internal/cluster/proxy.go:168-225 | reading a written frame, however nested, gives its settled form and leaves what follows |
| Replies.SettledExactly | internal/resp/writer.go:49-97 | the settled form is the frame itself exactly for plain frames |
| Replies.FrameRoundTrip | internal/resp/writer.go:27-151 | a frame comes back unchanged, with exactly what follows, exactly if it is plain |
| Replies.Writer.WriteLineText | internal/resp/writer.go:81-97 | appends the text with every line break turned into a space |
| Replies.Writer.WriteFrame | internal/resp/writer.go:27-44 | appends the wire form of the frame |
| Replies.ReadFrame | internal/cluster/proxy.go:168-225 | the recursive reader computes the specified frame and rest |
| Requests.RequestRoundTrip | internal/resp/parser.go:66-150 | a written request followed by anything parses to its upper-cased name, its exact arguments and what follows exactly if it is within the limits and its name is not empty |
| Requests.WriteRequestTo | internal/cluster/proxy.go:156-166 | the writer's loop computes the specified request |
| Requests.ParseCommand | internal/resp/parser.go:66-112 | the parser's loop computes the specified command or fault |
| Samples.CapitalsAsText | internal/resp/command.go:126-141 | command names: letters become capitals and nothing else changes |
| Samples.RepliesAsText | internal/resp/writer.go:27-97 | simple strings, errors and integers in the characters of the protocol |
| Samples.BulksAsText | internal/resp/writer.go:99-151 | bulk strings, arrays and the two forms of nothing in the characters of the protocol |
| Samples.RequestAsText | internal/cluster/proxy.go:156-166 | a request is an array of bulk strings, one per argument, in order |
| Samples.NumbersAsText | internal/engine/string_ops.go:130-157 | numbers in decimal, most significant digit first |
| Samples.PayloadSample | internal/engine/snapshot.go:189-205 | a list payload byte by byte |
| Samples.ChargesAsNumbers | internal/engine/list_value.go:106-117 | the bytes that strings, lists and sorted sets are charged for |
| Samples.LimitsAsNumbers | internal/resp/parser.go:24-30 | requests of at most 2^20 arguments of 32 MiB each and 64 MiB together |

## Left out

- Configuration, command-line tools, the web frontend, the workload generator,
  logging and metrics: plumbing without hard invariants.
- HTTP handlers, the TCP server, connection pools, deadlines and request signing:
  only "takes effect, does not, or its answer is lost" remains of them.
- The consensus library and its storage: committed commands are a totally ordered
  log. JSON is the identity and a plan identifier is any value.
- Snapshot files, their retention and the fence file: file-system behaviour.
- Orders of victims under FIFO, LRU, LFU and random eviction: the limit needs only
  that victims are some keys.
- Inline commands, option parsing and argument counts of single commands: a request
  that fails there is answered before it reaches the store or the admission path, so
  that no state changes. Relative expiry times enter as absolute ones.
- Access counts, versions and time stamps of entries: nothing proved here depends on
  them.
- Aliasing between the store and its values: lists and sorted sets are values inside
  the store; their own in-place structures are `ListValues` and `SkipLists`.
- Stripe counts of 2^32 and more, where the source's 32-bit conversions truncate.
- SlotMaps.SlotMap.Apply: compares the slot tables but not the cluster identifiers and
  peer lists, because every map in the model comes from a node of the same cluster, and
  these two are that cluster's configuration.
- `waitForConvergence` and the rate limit of synchronisation: the executor sees the
  converged rows, or an interruption; when it may go on waiting is a matter of time.
- Status summaries and skew as reported to operators.
- Balance of replicas after rebalancing: the source does not promise it. Proved is
  only where its loop may stop.
- The operation log kept with the controller's state.
- Fsm.FSM.Apply: an observed view replaces the former one whole. The source decodes it
  into the former one, where a node that is no longer listed would stay; every view lists
  the configured peers.
- FsmLog.RebalanceIsLast: places in the log count from one, as the consensus library
  counts them.
- Rebalance.PlanRebalance: views with two slots of one number or with a nameless node
  are not covered, because views come from slot maps that number their slots apart.
- Failover.FailoverRecovers: the same, and slots start with a leader that is not also
  their replica.
- Ownership.RunsKeepInv: topology changes run where the highest version is known, which
  the executor arranges by waiting for convergence before each step.
- Durability.AcknowledgedWritesSurvive: one slot, and orderly runs: promotions of ready
  replicas only; a transfer starts only while the replica is not ready, reads the slot
  and its entries in one step where the source takes two, and is applied in one step;
  no answer is lost, and no record arrives after its leader has given up. It is false of
  runs that lose answers and of unruly ones, see `Scenarios.SurvivesExactly`. Two more
  pairs of steps are taken together: a replica validates a record, applies it and commits
  its sequence, between which the source lets a promotion in; and a leader commits the
  sequence and executes the write. The order of acknowledgements is not tracked: the
  newest leader holds writes in the order they were applied, and one acknowledged late
  comes after writes that were applied after it.
- Scenarios.PromotionsKeepExactly: one slot, with the same steps taken together.
- LateWrites.LateExactly: one slot; with several, a broadcast about another slot may move
  the leader's counter. A replica validates and commits a record in one step; a promotion
  in between makes the commit fail, which is a refusal here.
- LateWrites.AssignmentEndsAtOnce: one slot; for several, `Ownership.AssignmentEndsTerm`
  has the refusal.
- Snapshots.ApplyShardSnapshot: reading and restoring the engine is one step here,
  two locked sections in the source.
- Crowding.UnseenExactly: for datasets of fewer than 2^64 bytes, where the counter has
  not wrapped, and for clocks that do not go back between planning and execution. The
  two cases that are compared get the same victims, although the source asks its policy
  for the number of bytes that are still missing, which may differ between them; and a
  pass may pick more than the 16 keys that the source samples.
- Admission.RunKeepsLimit: about commands that go through admission; records applied
  for another leader bypass it in the source.
