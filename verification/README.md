# A verified model of FQ-CoDel, versioned flow tables and the decision-tree wire format

The project models three parts of the repository and proves what they are for.

**FQ-CoDel** (`sch_fq_codel.c`, `codel.h`). Flows with packet queues and deficits are served round robin; CoDel
drops from the head of a flow that has been late for an interval. `SerialTime` treats the wrapping 32-bit clock beside
unbounded real time, `Newton` the fixed-point reciprocal square root, `Codel` and `CodelLemmas` the drop state machine with a
history of every examination, `CodelSchedule` that history read in real time (when packets are shed), `FqCodel`, `FqCodelInv`,
`FqCodelRun` and `FqCodelTheorems` the scheduler, its books and all runs of it, `Fairness` the round robin and `Starvation` how
long a flow can wait for its turn. `Qdisc` is the same machine as a class over arrays, with the loops and early exits of
the C code; each of its methods is proved to compute the function about which the laws are stated. `DropLog` is
the linked list from which a reader takes the log of dropped packets.

**Flow tables** (`ofproto.c`). A rule or group is visible from the version it was added in until the one it was
removed in. A flow mod is started, then reverted or finished; a bundle starts all its messages and then publishes one new
version or reverts. `FlowTable` and `FlowMod` give starts and reverts on switch values, `FlowMeaning` what criteria and new
rules mean in terms of packets and requests, `FlowSpec` and `GroupMod` the plain meaning of a mod on sets of rules and groups,
`FlowModRevert`, `FlowModInv` and `FlowRefine` connect them. `Bundle` gives the phases of a commit, `FlowShape` what starts and
reverts amount to in any state, and `BundleFailure`, `BundleKeeps`, `BundleGroups`, `BundleTidy`, `BundleClash` and
`BundleStray` what a failed bundle restores, leaves behind, keeps in order and may break. `FlowRuns` treats postponed removal,
eviction and all runs.
`OfprotoSwitch` is the switch as an object changed in place by loops, with the lists of `OfprotoLists`: buckets of the cookie
index, one eviction heap to a table, a list of rules to a group. Its methods are proved to compute those functions.
`CookieIndex` compares search by index with search by scan, `LearnedCookies` treats the
cascade of deletions for want of a teacher, `PortAlloc` the search for port numbers.

**Decision trees** (`newanalysis.py`, `ofproto.c`). A script prints a trained tree, the switch parses the text with nested
`strtok_r`, rebuilds the tree and searches it: `TreeWire`, `DecisionTree` and, with linked nodes, `TreeNodes`.

## What the code does differently from what it promises

- A dequeue that finds a flow empty does not reset `first_above_time`, as section 5.5 of RFC 8289 asks
  (`CodelLemmas.EmptyPollDoesNotForget`). It forgets exactly if no mark was set (`CodelLemmas.EmptyPollForgetsIff`): the grounds of a
  drop never reach back past a poll that found no mark (part of `CodelLemmas.DequeueKeepsHistory`), and a mark that a poll did find
  can always bring about a drop whose grounds do (`CodelLemmas.MarkSpansPoll`).
- Time comparisons are sound exactly for targets below 2^31 and intervals up to 2^31 clock units; the netlink
  interface accepts more. A schedule that has been overdue for 2^31 units or more is taken to lie ahead (`CodelSchedule.AtRest`).
- The second drop of an episode is planned one interval, the third only half an interval ahead: one Newton step from 1 at
  count 2 gives 1/2, not 1 / sqrt(2). `CodelSchedule.PlansApart` has the bounds that hold.
- A quantum of exactly 2^31 makes the dequeue circle for ever (`Fairness.QuantumMustNotBeHalf`).
- A reset keeps a pending `drop_count`, which is reported to the parent later (`FqCodelRun.ResetKeepsInv`).
- `delete_before_last_call_codel` never frees the marked node. With a stale mark it frees every entry, read or not; and if
  something had been logged between the snapshot and the clean-up that unlinked the mark, the list then starts with a freed
  node (`DropLog.SecondDeclaration`, `DropLog.DropList.DeleteBeforeLastCall`).
- `ofproto_rule_insert__` asserts the initial state (line 9854), but reverts hand it removed rules (lines 6450 and 9922). The model
  goes on, and `OfprotoSwitch.Ofproto.RuleInsert` reports it; the assertion holds exactly if the start had taken no rule out
  (`BundleFailure.RevertReinsertsRemovedRules`, and for bundles `BundleFailure.RevertsAssertIff`).
- A modify that added a rule is not reverted, and an eviction is reverted with one heap entry too many and its mark left on;
  `FlowModRevert.RevertUndoesStart` has the exact condition for one mod, `BundleFailure.FailedBundleRestoredIffClean` for a bundle.
  No lookup of the versions published so far sees the difference (`BundleFailure.FailedBundleUnseen`).
- After a failed bundle that evicted, the heaps stay inexact (`BundleKeeps.CommitSoundIff`). The mark left on the victim also keeps a
  later add or modify that replaces it from taking over its cookie and attributes (line 6397, `FlowShape.AddContents`).
- A rule that such a modify has left behind is published with the next version, and then two rules may have one key
  (`BundleClash.FailedBundleMayClash`; exactly when, `BundleFailure.FailedBundleKeepsKeysApart`). It may also name a group that
  the same failed bundle has taken back (`BundleStray.FailedBundleMayStray`; exactly when, `BundleGroups.FailedBundleRefersIff`);
  the next removal of that rule then fails the assertion `group` (line 9912), and a group added later under the number does not list it
  (`BundleStray.LaterGroupMissesRule`). `BundleTidy.CommitInvIff` says exactly which bundles leave the whole invariant intact.
- A search by cookie index over all tables also finds rules of hidden tables, which a scan passes over.
- A port search that starts outside its range goes round for ever if all numbers in it are in use, and otherwise until an
  hour has passed since some number was given back (`PortAlloc.SearchEndsExactly`). Until a first success it starts at 0 or at
  the largest number found at start-up (lines 3892-3894), either of which may be outside.
- Usage time 0 stands for "never used", so that a number given back at time 0 counts as free at once (`PortAlloc.ReusesSparinglyIff`).
- A decision tree that is a single leaf is sent without a father field and misread (`DecisionTree.LoneLeafIsMisread`). The frame
  `AAAA8B` ... `;.` is not stripped in `ofproto.c` and does no harm, because `atoi` stops at it.

## Model

| member | source | states |
|---|---|---|
| SerialTime.SerialOrder | codel.h:129-143 | the wrapped time comparisons order two instants as real time does whenever they are less than half the clock range apart |
| SerialTime.SerialOrderFailsAtHalf | codel.h:133-143 | at exactly half the range the order is lost: the later instant reads as earlier |
| SerialTime.SojournTestExact | codel.h:304-308 | "not before target" implies a real sojourn of at least the target, for all sojourns, if and only if target < 2^31 |
| SerialTime.IntervalTestExact | codel.h:311-317 | passing the first-above mark implies that more than an interval of real time went by, for all instants, if and only if interval <= 2^31 |
| SerialTime.IntervalFires | codel.h:316-317 | less than half a range after the mark the comparison does fire |
| SerialTime.PlanTestExact | codel.h:129-143 | a time planned some wait ahead is never taken to have come before it has, for all instants, if and only if the wait is at most 2^31 |
| SerialTime.ConfigurableRange | sch_fq_codel.c:406-422 | a configured interval is in the tolerated range if and only if it is below 2,199,023,256 microseconds |
| Newton.NewtonNoWrap | codel.h:260-270 | with count * rec^2 <= 3 * 2^32 the subtraction does not underflow, no 64-bit product overflows, and the machine step is the exact one narrowed to 16 bits |
| Newton.ExactStepBound | codel.h:260-270 | a step never lands above the curve count * rec^2 = 2^32 |
| Newton.StepReturnsToCurve | codel.h:260-270 | from at most one increment above the curve the machine step is exact and lands on or below it |
| Newton.IncrementKeepsCurve | codel.h:369-372 | the increment in the drop loop followed by a step keeps the curve, the wrap of `count` included |
| Newton.ReentryKeepsCurve | codel.h:536-549 | re-entering the dropping state keeps the curve, with the remembered rate as well as from scratch |
| Newton.AdvanceBound | codel.h:277-282 | the wait the control law adds satisfies count * wait^2 <= interval^2 |
| Newton.QuadraticConvergence | codel.h:254-270 | the shortfall from the curve is at most squared by a step, up to the truncation to 16 bits |
| Newton.StepStaysPositive | codel.h:260-270 | a positive estimate never collapses to 0 |
| Newton.StepKeepsNear | codel.h:254-270 | the estimate never lags more than a factor of the square root of two, and two units, behind 1 / sqrt(the highest count so far) |
| Newton.AdvanceLongEnough | codel.h:277-282 | so the wait the control law adds is not shorter than interval / sqrt(2 * highest count), up to the truncations |
| Codel.DequeueKeepsRate | codel.h:337-559 | every dequeue leaves a rate on or below the curve, so every wait is at most interval / sqrt(count); when waits begin and what they lead to is stated by `CodelSchedule.DequeueKeepsSchedule` |
| CodelLemmas.DequeueBalances | codel.h:337-559 | a dequeue accounts for every packet in order in queue, result, drop counts and byte counts; it comes back empty-handed from a non-empty flow only if more than an MTU is left behind, so the last queued packet is never dropped |
| CodelLemmas.ExamKeepsHistory | codel.h:304-319 | a positive verdict has grounds: everything examined since an examination more than an interval earlier was late with more than an MTU left behind; and the mark, set, kept or cleared, always remembers such an examination |
| CodelLemmas.DequeueKeepsHistory | codel.h:284-320 | every drop or mark ever made was preceded, more than an interval of real time earlier, by an examination since which every packet examined was late and left more than an MTU behind; 32-bit wraps and the 0 sentinel included, and whatever the settings: lateness is claimed for targets below 2^31, the time passed for intervals up to 2^31, which are the exact bounds |
| CodelLemmas.VerdictFires | codel.h:311-317 | once an interval has passed since the remembered examination a packet is condemned if and only if it is late and more than an MTU is left |
| CodelLemmas.EmptyPollDoesNotForget | codel.h:348-351 | a concrete run in which a flow stands empty in between and the next late packet is dropped all the same: the mark is not reset as section 5.5 of RFC 8289 asks |
| CodelLemmas.EmptyPollForgetsIff | codel.h:348-351 | after a dequeue has found the flow empty the next verdict is negative, for every packet, time, settings and backlog, if and only if no mark was set |
| CodelLemmas.MarkSpansPoll | codel.h:348-351 | conversely, whenever an empty poll finds the mark set: under whatever settings with a measurable interval, for whatever length, and whatever backlog leaves more than an MTU behind, a packet can come after the poll that is condemned, all grounds for which reach back past the poll |
| CodelLemmas.DequeueCounts | codel.h:299-302 | the totals of a dequeue are those of its log: packets marked, dropped, bytes dropped, the longest packet examined; and the count of delay marks goes up exactly for a packet handed out that accepts a mark and was queued longer than `ce_threshold`, for delays and thresholds below 2^31 |
| CodelSchedule.DequeueKeepsSchedule | codel.h:337-559 | read in real time, the log of a flow is a legal course: packets are shed only right after they were condemned, marked if marking is on and they accept it and else dropped; every condemned packet is shed unless the next time planned is ahead; each one shed is followed by a plan while the episode lasts, from its own time for the first, from the time planned before for the others, spaced as the count says; and a dequeue that leaves the flow dropping leaves what it planned ahead of the clock, or has just opened the episode, or ended at a mark |
| CodelSchedule.OpeningIsPlanned | codel.h:536-552 | an episode opens with count 1, or with the number of packets the last one shed after its first if those were more than one and this one begins less than 16 intervals after the time planned last, in real time; the first wait runs from the first packet shed |
| CodelSchedule.NeverBeforePlan | codel.h:357-369 | no later packet of an episode is dropped or marked before the time planned for it, under intervals up to 2^31 |
| CodelSchedule.SecondShedWaits | codel.h:459-552 | in an episode that starts from scratch the second packet is shed no earlier than an interval after the first, but for a 65536th of it |
| CodelSchedule.PlansApart | codel.h:371-456 | times planned one after the other in an episode are at most interval / sqrt(count) apart and not less than interval / sqrt(2 * highest count) up to truncation, where the count has grown by the packets shed in between |
| CodelSchedule.VerdictIsHeeded | codel.h:353-460 | a condemned packet is shed at once, unless it was examined in the place of one just shed or the episode is on and its time ahead |
| FqCodel.BeginProgresses | sch_fq_codel.c:267-299 | every jump back to `begin` strictly decreases missing credit plus twice the new flows plus the old flows, in the machine's 32-bit arithmetic and for every quantum but 2^31, so the dequeue ends |
| FqCodelInv.PacketsIffBytes | sch_fq_codel.c:141-150 | packets are queued if and only if bytes are |
| FqCodelInv.PollKeepsInv | sch_fq_codel.c:282-290 | CoDel on one flow keeps all books, counting the packet it returns as held, and comes back without one only if the flow is empty and bytes of other flows remain |
| FqCodelInv.BeginKeepsInv | sch_fq_codel.c:267-299 | one pass keeps the invariant, jumps back only with packets left if there were any, and finds nothing listed only if nothing is queued |
| FqCodelInv.WorkConservation | sch_fq_codel.c:253-350 | a dequeue returns a packet if and only if one is queued, and keeps the invariant |
| FqCodelInv.DequeueReports | sch_fq_codel.c:302-309 | the parent hears of drops only from a dequeue that hands out a packet and leaves others queued, and then of all that were pending |
| FqCodelRun.FatFlowIsFattest | sch_fq_codel.c:152-180 | the flow chosen when the limit is passed has the largest backlog, the first such |
| FqCodelRun.EnqueueKeepsInv | sch_fq_codel.c:190-232 | an enqueue keeps the invariant and the limit |
| FqCodelRun.TrimStep | sch_fq_codel.c:433-439 | while the queue exceeds the limit the trimming loop is handed a packet, never NULL |
| FqCodelRun.TrimFits | sch_fq_codel.c:433-442 | the trimming loop ends with qlen <= limit and all books in order |
| FqCodelRun.ConfigureKeepsInv | sch_fq_codel.c:406-431 | any new settings keep the invariant, but for a quantum of 2^31 |
| FqCodelRun.ChangeSets | sch_fq_codel.c:406-446 | after a change every setting given is in force, times scaled from microseconds to units of 1024 ns, the quantum at least 256; the others are as before; the queue fits the limit; and if it did before, nothing else has changed but that pending drops are reported |
| FqCodelRun.ResetKeepsInv | sch_fq_codel.c:352-373 | a reset empties every flow and counter; the parent's count stays right if and only if no late-reported drops were pending, for `drop_count` survives a reset |
| FqCodelTheorems.InitialIsGood | sch_fq_codel.c:471-513 | a freshly set-up discipline satisfies the invariant |
| FqCodelTheorems.DeliveredInOrder | sch_fq_codel.c:131-150 | packets delivered from a flow are a subsequence of those that arrived |
| FqCodelTheorems.ReachableStates | sch_fq_codel.c:131-446 | over every run of enqueues, dequeues, changes and resets: qlen, backlogs, total and drops are the sums they should be, every packet is queued or has exactly one fate (handed out, dropped by CoDel, dropped over the limit, freed because of a smaller limit, flushed), those handed out left in order, non-empty flows are listed once, every drop is justified, the limit holds |
| FqCodelTheorems.EnqueueOutcome | sch_fq_codel.c:190-232 | a classified packet, stamped with a reading of the clock made for it, always enters its flow last; if the flow was on no list it becomes the last new one, with a fresh quantum; over the limit exactly one packet leaves, the oldest of a flow with the largest backlog, and congestion is signalled if and only if that flow is the sender's |
| FqCodelTheorems.PollCountsDrops | sch_fq_codel.c:282-290 | a flow's own count grows by what CoDel sheds from it, marked or dropped; and a poll of a flow with packets examines and sheds at the time of one reading of the clock made for it |
| Fairness.GrantsAlternate | sch_fq_codel.c:267-299 | two flows that stay on the old list are granted quanta alternately |
| Fairness.CreditOverRun | sch_fq_codel.c:276-301 | credit along a run is the credit at the start plus quanta granted minus bytes sent, and stays between minus a packet and a quantum |
| Fairness.RunKeepsCredit | sch_fq_codel.c:253-350 | from the start, and as long as the quantum, below 2^31, is not changed, every flow's deficit lies between minus the longest packet and a quantum, over every run of enqueues, dequeues, changes and resets |
| Fairness.RoundRobinFairness | sch_fq_codel.c:267-301 | from any state so reached, over any run in which two flows stay on the old list, their grants differ by at most one and their bytes by less than 3 * quantum + 2 * maxpacket |
| Fairness.QuantumMustNotBeHalf | sch_fq_codel.c:267-299 | the loop at `begin` ends from every state if and only if the quantum is not 2^31; with that one the first packet to arrive makes it circle for ever |
| Fairness.EnqueueIsUndisturbed | sch_fq_codel.c:190-232 | enqueues do not disturb two flows standing on the old list |
| Starvation.TurnComes | sch_fq_codel.c:267-300 | no listed flow starves: while nothing has been done to it, the passes through the block at `begin` and the bytes handed out, however packets arrive, stay within quantum + longest packet times the new flows before it, or, if it is old, times twice the old flows before it and once each flow not on the old list |
| Starvation.NoFlowStarves | sch_fq_codel.c:253-350 | so from every state the discipline reaches under one quantum below 2^31 |
| Starvation.OvertakesOnce | sch_fq_codel.c:292-298 | while a flow waits on the old list any other leaves the new list at most once, and overtakes it that way by less than a quantum and a packet |
| Starvation.EmptiedFlowLeaves | sch_fq_codel.c:292-298 | a flow whose turn finds nothing to send stays listed if and only if it was new and old flows are waiting, and then at the end of their list |
| Qdisc.FqCodelQdisc.constructor | sch_fq_codel.c:471-513 | the initial state, field by field, with a target of 5 and an interval of 100 milliseconds |
| Qdisc.FqCodelQdisc.DequeueHead | sch_fq_codel.c:131-138 | unlinks the head packet and adjusts backlog and qlen; nothing else changes |
| Qdisc.FqCodelQdisc.ShouldDropNow | codel.h:284-320 | computes `Codel.ShouldDrop`, for which `CodelLemmas.ExamKeepsHistory` proves that verdicts are justified |
| Qdisc.FqCodelQdisc.ShedWhileDue | codel.h:367-457 | the drop loop ends and computes `Codel.DropLoop` |
| Qdisc.FqCodelQdisc.StartDropping | codel.h:459-552 | the first drop, the rate it starts from and the time planned next compute `Codel.FirstDrop`, whose times `CodelSchedule.OpeningIsPlanned` bounds |
| Qdisc.FqCodelQdisc.CodelDequeue | codel.h:337-559 | the whole of `codel_dequeue` computes `Codel.Dequeue`, for which `CodelSchedule.DequeueKeepsSchedule` says what is shed when |
| Qdisc.FqCodelQdisc.AppendNow | sch_fq_codel.c:141-150 | appends the packet, counts it, and lists an unlisted flow as new with a fresh quantum |
| Qdisc.FqCodelQdisc.FindFattest | sch_fq_codel.c:164-169 | the loop over all backlogs finds the flow `FatFlow` |
| Qdisc.FqCodelQdisc.DropFromFattest | sch_fq_codel.c:152-180 | drops the head of the fattest flow and returns that flow |
| Qdisc.FqCodelQdisc.EnqueuePacket | sch_fq_codel.c:190-232 | computes `FqCodel.Enqueue`, state and verdict |
| Qdisc.FqCodelQdisc.PollFlow | sch_fq_codel.c:282-290 | runs CoDel on a flow and adds what was shed to the flow's own count |
| Qdisc.FqCodelQdisc.Deliver | sch_fq_codel.c:301-310 | charges the flow and reports pending drops to the parent |
| Qdisc.FqCodelQdisc.DequeuePacket | sch_fq_codel.c:253-350 | the loop at `begin` computes `FqCodel.FqDequeue`, state and packet, of whose passes `Starvation.TurnComes` shows that they starve no flow |
| Qdisc.FqCodelQdisc.TrimNow | sch_fq_codel.c:433-439 | the trimming loop computes `FqCodelRun.Trim` |
| Qdisc.FqCodelQdisc.ChangeSettings | sch_fq_codel.c:385-446 | computes `FqCodelRun.Change`, whose settings `FqCodelRun.ChangeSets` states |
| Qdisc.FqCodelQdisc.ResetNow | sch_fq_codel.c:352-373 | computes `FqCodelRun.Reset` |
| DropLog.StepKeepsHandOff | codel.h:105-127 | every log, snapshot and declaration keeps the hand-off: what was handed over is a prefix of what was logged and covers what was unlinked |
| DropLog.SecondDeclaration | codel.h:105-127 | a second declaration of one snapshot, whatever is logged in between: everything logged since is freed unread if nothing had been logged between the snapshot and the clean-up; if anything had, and only then, the list is left to start with a freed node |
| DropLog.EmptySnapshotIff | codel.h:105-127 | a snapshot declared transmitted makes the clean-up at the next drop follow a null mark if and only if the list was empty |
| DropLog.ExactlyOnce | sch_fq_codel.c:663-673 | over every legal run the snapshots followed by what is not yet handed over are exactly the logged drops, in order |
| DropLog.DropList.DeleteBeforeLastCall | codel.h:105-127 | for every state of list and mark: with the mark in the list, the nodes after it remain linked, those before it are freed and the marked one is unlinked but never freed; with a stale mark all are freed, and the list is then empty or starts with a freed node, as the mark was last or not when it was unlinked |
| DropLog.DropList.LogDrop | codel.h:385-438 | logging a drop, with the clean-up it may trigger, is one step of the protocol; the links spell out what the protocol says |
| DropLog.DropList.SnapshotList | sch_fq_codel.c:663-667 | a snapshot hands over the whole list and marks its end |
| DropLog.DropList.DeclareTransmitted | sch_fq_codel.c:670-673 | declaring the snapshot transmitted is one protocol step |
| FlowTable.BackUndoesOut | ofproto.c:9848-9923 | reinserting a removed rule restores classifier, cookie index, eviction groups and group members |
| FlowTable.DropUndoesIn | ofproto.c:9848-9923 | removing a rule that was just inserted restores all structures |
| FlowModRevert.UnreplaceUndoesReplace | ofproto.c:6388-6465 | `replace_rule_revert` undoes `replace_rule_start` |
| FlowModRevert.UnreplaceAllUndoes | ofproto.c:6654-6670 | reverting a modify undoes all its replacements although it goes through them first to last |
| FlowModRevert.UndeleteAllUndoes | ofproto.c:6756-6775 | reverting a delete restores all its rules, visibility, counts and groups |
| FlowShape.StartRecorded | ofproto.c:8809-8844 | from any state, a start takes out exactly the old rules it records, brings in exactly the new ones, under unused identities, changes groups in nothing but their members, and leaves a record its revert can work with |
| FlowShape.RevertHasShape | ofproto.c:8847-8871 | in any state that fits the record, the revert brings back exactly the recorded old rules and removes exactly the new ones, except that a modify without old rules leaves its new rule in place |
| FlowShape.AddContents | ofproto.c:6388-6413 | in any state, unclean ones included: the rule an add puts in the place of one with its key holds what `FlowMeaning.AddedOver` says; but of a rule that bears the mark of an eviction, left by a failed bundle, it takes over nothing |
| FlowShape.ModifyContents | ofproto.c:6388-6413 | and likewise the rules that a modify puts in the place of those it finds: `FlowMeaning.Modified`, or nothing taken over from a marked one but the key |
| FlowModRevert.RevertUndoesStart | ofproto.c:8809-8871 | reverting a started flow mod restores the whole switch if and only if the mod neither evicted a rule nor was a modify that added one under a new key |
| FlowModInv.NewestView | ofproto.c:5370-5381 | in the newest version exactly the inserted rules are visible |
| FlowModInv.ReplaceKeepsInv | ofproto.c:6388-6435 | a replacement keeps one rule per key and version and all redundant structures, and adds the new rule to the newest view only |
| FlowMeaning.NarrowerMeans | ofproto.c:5418 | one match covers another exactly if it matches every packet the other matches |
| FlowMeaning.CompatibleMeans | ofproto.c:6024-6029 | two matches are compatible exactly if some packet satisfies both |
| FlowMeaning.SelectedMeans | ofproto.c:5368-5501 | what a request selects is exactly what is inserted and asked for: strictly the rule with that match and priority, loosely every rule all of whose packets the match covers, with the table, port, group and cookie bits asked for, in tables that are not hidden unless named or the whole cookie is given, and the switch's own rules only for requests with a priority beyond 65535 |
| FlowMeaning.OwnRulesEscape | ofproto.c:5295-5301 | a request that is loose or names an ordinary priority never touches the switch's own rules |
| FlowRefine.AddIsSeen | ofproto.c:6388-6413 | in what lookups see: after an add one rule stands under the key, with the request's timeouts, flags and actions, and its cookie unless that is all ones and there was a rule to keep the cookie of; no other rule changes but one that makes way in a full table |
| FlowRefine.ModifyIsSeen | ofproto.c:6388-6413 | after a modify that finds rules each of those has one successor under its key, with its own timeouts, importance, flags and date, the request's actions, and the request's cookie only if a change was asked for and it is not all ones; all other rules stay, and nothing comes under any other key |
| FlowRefine.VictimMeans | ofproto.c:6031-6040 | there is a rule to evict exactly if the table evicts and some rule seen in it has a timeout, and the victim is such a rule |
| FlowRefine.FullTableIff | ofproto.c:6018-6040 | an add fails for want of room exactly if its groups are known, no rule has its key, it need not fear an overlap, the table is full, and no rule of it may make way |
| FlowRefine.AddFaithful | ofproto.c:6002-6054 | an add means: replace the rule with the key, else fail on overlap, else find or make room; errors included; the plain meaning says in terms of packets what an overlap is and field by field what the new rule holds |
| FlowRefine.ModifyFaithful | ofproto.c:6526-6612 | a modify changes the actions, and the cookie if asked, of exactly the rules asked for, or adds, or does nothing; errors included |
| FlowRefine.DeleteFaithful | ofproto.c:6739-6754 | a delete removes exactly the matching rules; errors included |
| FlowRefine.StartFaithful | ofproto.c:8809-8844 | every started flow mod means, in its version, what its plain meaning on sets of rules says, which names neither the selection nor the contents of the machine, keeps the invariant, and changes no earlier version |
| GroupMod.GroupRevertUndoesStart | ofproto.c:8510-8516 | reverting a group add or modify restores the switch, rules moved back included |
| GroupMod.GroupStartFaithful | ofproto.c:8465-8476 | a group add, modify or add-or-modify means what its plain meaning says, errors and limits included |
| Bundle.RevertMsgUndoes | ofproto.c:8945-9001 | one message's revert restores the switch if and only if the message was clean |
| Bundle.RevertAllUndoes | ofproto.c:8983-9002 | undoing the started messages in reverse order restores the state before the first |
| Bundle.BeginFaithful | ofproto.c:8944-8981 | starting the messages one after the other means what their plain meanings in order say |
| BundleFailure.CommitConcludesAlways | ofproto.c:8983-9002 | a commit always comes to an end, from whatever state: every record still fits when its turn to be reverted comes, clean or not |
| BundleFailure.BundleAtomicity | ofproto.c:8923-9051 | for every bundle, from every state in which the invariant holds of what the next version would show: it takes effect as a whole, in order, in one new version, with earlier versions unchanged; or, when a message fails, with the error its plain meaning has, no version lookups use has changed, and the whole switch is as before if and only if every message started was clean |
| BundleFailure.FailedBundleUnseen | ofproto.c:8913-8915 | a failed bundle leaves behind just the rules its modifies have added, not visible to any lookup of the published version or before, and marks of eviction |
| BundleFailure.FailedBundleRestoredIffClean | ofproto.c:8983-9002 | a failed bundle of any number of messages is undone completely if and only if each message started is one its revert undoes |
| BundleFailure.UncleanScars | ofproto.c:8983-9002 | a message that its revert does not undo leaves a trace that no later revert wipes out |
| BundleFailure.LeftByRequest | ofproto.c:6661-6669 | what a reverted flow mod leaves behind is one rule if it is a modify that found nothing to modify and added a rule under a new key without eviction, else nothing |
| BundleFailure.FailedBundleKeepsKeysApart | ofproto.c:6661-6669 | after a failed bundle no version shows two rules with one key if and only if the rules left behind have keys different from each other's and from those of all inserted rules |
| BundleClash.FailedBundleMayClash | ofproto.c:6661-6669 | a concrete bundle (delete, modify that adds, failing delete) after which two rules with one key will be shown in the next version |
| BundleKeeps.CommitKeepsOrder | ofproto.c:8923-9051 | whatever bundle is committed, however it ends, the cookie index holds exactly the inserted rules, nothing is dated beyond the next version, and groups and their counters are in order |
| BundleKeeps.CommitSoundIff | ofproto.c:6416-6465 | after any commit, table counters and eviction heaps are exact if and only if the bundle did not fail after an eviction |
| BundleGroups.FailedBundleRefersIff | ofproto.c:6661-6669 | after a failed bundle every inserted rule names current groups if and only if the rules left behind name groups that were current before the bundle |
| BundleGroups.BundleFindsGroups | ofproto.c:9865-9920 | where every inserted rule names current groups, the lookups of groups that the code asserts succeed all through the starts of any bundle and all through its reverts |
| BundleGroups.FailedBundleKeepsLists | ofproto.c:8502-8533 | a failed bundle leaves every current group listing exactly the inserted rules that name it, whatever it leaves behind |
| BundleStray.FailedBundleMayStray | ofproto.c:6661-6669 | a concrete bundle (group add, modify that adds a rule naming it, failing delete) after which an inserted rule names a group that does not exist |
| BundleStray.LaterGroupMissesRule | ofproto.c:8190-8222 | if a group with that number is added later, its list misses the rule |
| BundleTidy.CommitInvIff | ofproto.c:8923-9051 | after any commit the whole invariant (keys, dates, indexes, heaps, counters, group references and lists) holds if and only if the bundle succeeded, or evicted nothing and left only rules with keys of their own that name groups current before |
| BundleTidy.CleanIsTidy | ofproto.c:8983-9002 | a bundle of messages that their reverts undo is such a bundle: it leaves nothing |
| BundleFailure.NothingSeenEarly | ofproto.c:8905-8921 | after any start and after any revert of a bundle, lookups of the published version, and of any before it, see what they saw |
| FlowRuns.ReclaimUnseen | ofproto.c:4069-4092 | postponed removal of what the published version no longer shows is never seen |
| FlowRuns.AddOccupancy | ofproto.c:6031-6040 | an add never leaves a table's count above its limit or its previous value, and touches no other count |
| FlowRuns.EvictionMakesRoom | ofproto.c:5854-5879 | eviction ends within the limit, or with no rule of the table left in any eviction group; it takes out no more than the excess, and only rules of that table that could be evicted |
| BundleFailure.RevertReinsertsRemovedRules | ofproto.c:9853-9854 | every rule a revert reinserts is a removed one, so the assertion of an initial state holds for the revert of a started flow mod if and only if the start took nothing out: an add under a new key that found room, a modify that found nothing and added at most so, a delete that selected nothing |
| BundleFailure.RevertsAssertIff | ofproto.c:9853-9854 | the assertion holds through all reverts of a failing bundle if and only if none of its started messages took a rule out |
| FlowRuns.ReachableAnyhow | ofproto.c:8923-9051 | in every state any run of bundles, evictions and postponed removals reaches, whatever has failed: the cookie index holds exactly the inserted rules, which are those the next version would show; group counters are exact; no version shows two groups with one number |
| FlowRuns.ReachableSparing | ofproto.c:8923-9051 | in every state of a run in which no bundle has failed after an eviction, each table's count and the eviction heaps are exact, too |
| FlowRuns.ReachableTidily | ofproto.c:6388-6826 | in every state of a run in which failed bundles were tidy (evicted nothing and left only rules with keys of their own and known groups), at most one rule per key is visible in any version, each table's count is the number of its inserted and next-visible rules, inserted rules name current groups only, and groups list exactly their rules |
| FlowRuns.ReachableFindsGroups | ofproto.c:9865-9920 | in every such state the code finds each group it asserts, through the starts and reverts of whatever bundle comes next |
| CookieIndex.IndexAgreesWithScan | ofproto.c:5396-5443 | for a given table and a whole cookie the index selects exactly what a scan selects, for any hash function |
| CookieIndex.AllTablesAgreeIffNoneHidden | ofproto.c:5229-5247 | for all tables the two agree if and only if no rule of a hidden table is selected |
| CookieIndex.FlushDeletes | ofproto.c:4369-4389 | the catch-all criteria of a flush select for deletion exactly the inserted rules with that cookie in that table that are neither the switch's own nor in a read-only table |
| LearnedCookies.TeachersWithout | ofproto.c:4336-4349 | the number of learn actions in force is a sum from which any rule can be taken first |
| LearnedCookies.TaughtIfCounted | ofproto.c:4285-4313 | with exact counts a lesson has an entry if and only if some rule teaches it |
| LearnedCookies.Table.Increment | ofproto.c:4352-4357 | raises each count by the number of learn actions and keeps no zero entry |
| LearnedCookies.Table.Decrement | ofproto.c:4360-4366 | lowers each count and reports exactly the lessons that died |
| LearnedCookies.Table.TakeBack | ofproto.c:6778-6807 | taking back the lessons of deleted rules keeps counts exact and reports exactly the lessons that died |
| LearnedCookies.Table.Flush | ofproto.c:4369-4389 | the recursion ends; what is left is swept of all dead lessons, spares every set of rules that can stay together, and has exact counts |
| LearnedCookies.Table.DeleteFlows | ofproto.c:6813-6826 | a deletion and its cascade leave exactly the largest set of rules each of which is protected, was never taught, or is still taught by one of the set |
| LearnedCookies.Table.FinishReplace | ofproto.c:6469-6522 | finishing an add or modify keeps counts exact and leaves exactly that largest set |
| OfprotoSwitch.Ofproto.constructor | ofproto.c:1690-1720 | a new switch, with empty lists, is the fresh one from which all runs start |
| OfprotoSwitch.Ofproto.HeapRemove | ofproto.c:9573-9588 | the search through a table's eviction heap takes out one entry of the rule, and no other heap has one |
| OfprotoSwitch.Ofproto.JoinGroups | ofproto.c:9865-9874 | one group action at a time, the rule is entered in the list of the one current group of that number; says whether all were found, as the code asserts |
| OfprotoSwitch.Ofproto.LeaveGroups | ofproto.c:9903-9920 | one group action at a time, one entry of the rule is taken out of the group's list; says whether all were found, as the code asserts |
| OfprotoSwitch.Ofproto.RuleInsert | ofproto.c:9848-9878 | links a rule into the bucket of its cookie, the heap of its table and the lists of its groups, and so into the sets the model has of these; says whether the assertions on its state and on the groups hold |
| OfprotoSwitch.Ofproto.RuleRemove | ofproto.c:9883-9923 | unlinks it from all of them; says whether the assertions on its state and on the groups hold |
| OfprotoSwitch.Ofproto.ReplaceRuleRevert | ofproto.c:6438-6465 | computes `FlowMod.Unreplace` in place |
| OfprotoSwitch.Ofproto.FindRule | ofproto.c:6018-6022 | finds the rule of a key visible in a version, the oldest if there are several, or none |
| OfprotoSwitch.Ofproto.RuleOverlaps | ofproto.c:6024-6029 | says whether some visible rule of the same priority can match the same packet |
| OfprotoSwitch.Ofproto.CheckActions | ofproto.c:4653-4656 | accepts actions if and only if every group they name is current |
| OfprotoSwitch.Ofproto.CollectBelow | ofproto.c:5405-5431 | searching one bucket of the cookie index when the whole cookie is given, and the visited tables otherwise, meets exactly the rules to be selected: no other bucket can hold one |
| OfprotoSwitch.Ofproto.CollectMatching | ofproto.c:5368-5501 | collects exactly the selected modifiable rules, and reports a permission error if and only if only read-only ones are selected |
| OfprotoSwitch.Ofproto.AddFlowStart | ofproto.c:6002-6054 | computes `FlowMod.AddStart`, state, undo record and error, which `FlowRefine.AddIsSeen` states in terms of lookups |
| OfprotoSwitch.Ofproto.ReplaceEach | ofproto.c:6526-6612 | the loop over old and new rules computes `FlowMod.ModifyThese`, which `FlowRefine.ModifyIsSeen` states in terms of lookups |
| OfprotoSwitch.Ofproto.DeleteFlowsStart | ofproto.c:6739-6754 | the loop computes `FlowMod.DeleteStart` |
| OfprotoSwitch.Ofproto.ModifyFlowsRevert | ofproto.c:6655-6670 | the loop computes `FlowMod.UnreplaceAll`, and does nothing without old rules |
| OfprotoSwitch.Ofproto.DeleteFlowsRevert | ofproto.c:6757-6775 | the loop computes `FlowMod.UndeleteAll` |
| OfprotoSwitch.Ofproto.Supersede | ofproto.c:8366-8380 | the new group takes over the list of rules of the old one, which is no longer current |
| OfprotoSwitch.Ofproto.RestoreGroup | ofproto.c:8511-8516 | the old group gets its list back and the new one goes; one current group to a number, as before |
| OfprotoSwitch.Ofproto.BeginPhase | ofproto.c:8944-8981 | starts messages until one fails |
| OfprotoSwitch.Ofproto.RevertPhase | ofproto.c:8991-9001 | undoes the started messages last to first |
| OfprotoSwitch.BegunUnwinds | ofproto.c:8991-9001 | what the reverts of a begun bundle ask of the states they meet holds for every bundle: each record fits, and no two current groups ever have one number |
| OfprotoSwitch.Ofproto.FinishPhase | ofproto.c:9003-9043 | the version is raised by the first message finished, once |
| OfprotoSwitch.Ofproto.BundleCommit | ofproto.c:8923-9051 | for every bundle and every state that runs can reach, whatever has failed before: the lists stay in order and the outcome is that of `Bundle.Commit`; and if the invariant holds before, everything took effect in one new version or lookups see no change |
| PortAlloc.ProbeRound | ofproto.c:3464-3468 | a search goes round the range 1 to min(max_ports, 32768) - 1, from wherever it begins |
| PortAlloc.RoundCovers | ofproto.c:3464-3492 | within one round each number comes up exactly once, the starting one last |
| PortAlloc.SearchEndsExactly | ofproto.c:3464-3492 | with the clock read at every number, and once an hour has passed since the last number was given back, the search ends if and only if it began inside the range or some number in range is not in use |
| PortAlloc.AllocationIsSound | ofproto.c:3445-3496 | a number handed out was not in use; none is handed out if and only if all are in use and none was asked for that is free; reuse within the hour only if the search found every number in use or that recent, and then the least recently used |
| PortAlloc.AllocationIsDetermined | ofproto.c:3445-3496 | outcome and new state are determined by the state, the request and the clock |
| PortAlloc.StaysInUse | ofproto.c:3736-3782 | a number stays in use until it is given back |
| PortAlloc.HandedOutOnce | ofproto.c:3445-3504 | over any run a number handed out twice was given back in between, so live ports are distinct |
| PortAlloc.RecordsStanding | ofproto.c:3736-3782 | over every run from the beginning what is recorded about a number is how it stands by the events alone: never used, out, or back since the time it was given back |
| PortAlloc.ReusesSparinglyIff | ofproto.c:3464-3504 | in whatever run: a number that came back at some time is handed out again unrequested within an hour of it only when every number is out or came back within the hour, and none before it; if and only if it did not come back at time 0, which the program takes for never used |
| PortAlloc.RunsOutExactly | ofproto.c:3464-3496 | by the events alone nothing that is out is handed out, and an allocation without request comes back with none if and only if all numbers on offer are out |
| PortAlloc.PortNumbers.Find | ofproto.c:3464-3492 | the loop, which reads the clock at each number, stops at the first it can: a usable number, or the one it began with, and then finds the least recently used, else none |
| PortAlloc.PortNumbers.Alloc | ofproto.c:3445-3496 | does what `Allocates` describes, state included |
| PortAlloc.PortNumbers.Dealloc | ofproto.c:3499-3504 | records the time at which a number below max_ports is given back, which `PortAlloc.ReusesSparinglyIff` shows to matter, and leaves others alone |
| TreeWire.AtoiOfStr | ofproto.c:747-758 | a printed number below 2^31 is read back, whatever non-digit follows it |
| TreeWire.TokensOfJoin | ofproto.c:737-777 | splitting with `strtok_r` undoes joining, for non-empty parts without the delimiter |
| TreeWire.Serialize | newanalysis.py:157-170 | the nested loops join fields by commas and nodes by bars, within the frame |
| TreeWire.ParseRecord | ofproto.c:744-764 | the inner loop sets the fields in order and leaves those not sent cleared |
| TreeWire.ParseText | ofproto.c:737-777 | the nested loops append one record for each node sent |
| DecisionTree.GatherTree | newanalysis.py:96-151 | node lines and the edge lines after them give each node below the root its five fields, in preorder |
| DecisionTree.PrintedFields | newanalysis.py:125-151 | a tree whose root is a test is sent with five fields for every node; a lone leaf is sent with four |
| DecisionTree.ParseOfWire | ofproto.c:725-777 | what is read is field by field what was written, up to the frame around the text |
| DecisionTree.FrameIsHarmless | newanalysis.py:170 | the unstripped frame changes no record of five fields |
| DecisionTree.NoChildrenBelow | ofproto.c:964-990 | a search for children passes over a subtree in which the father does not occur |
| DecisionTree.CreateOfRecords | ofproto.c:916-941 | rebuilding from the records of a tree with distinct numbers gives that tree, whatever records follow |
| DecisionTree.LoneLeafIsMisread | newanalysis.py:146-151 | a tree that is one leaf arrives with its fields one place off |
| DecisionTree.TreeRoundTrip | ofproto.c:725-941 | a tree printed, parsed and rebuilt is the same tree if and only if its root is a test |
| DecisionTree.LookupIsMeasured | ofproto.c:1022-1031 | the loop over the items finds the value of the first item of the name, and none only if no item has it |
| DecisionTree.SuppliedDecides | ofproto.c:1013-1055 | if every name tested in a tree occurs among the items, the tree decides |
| DecisionTree.SuppliedSearchEnds | ofproto.c:1013-1055 | and the search through a complete tree ends in a leaf |
| DecisionTree.SearchDecides | ofproto.c:1013-1055 | `bst_search` finds the leaf of recursive evaluation, which looks up the first item of each name, or nothing if a feature tested on the way is missing |
| DecisionTree.SentTreeDecides | ofproto.c:1013-1055 | end to end: the switch decides as the tree that was trained, and with all features supplied it does decide |
| TreeNodes.FindNext | ofproto.c:964-990 | the loops of `find_lchild` and `find_rchild` find the first and second later record of a father |
| TreeNodes.CreateTree | ofproto.c:916-941 | allocates fresh nodes whose shape is `DecisionTree.Create` of the records |
| TreeNodes.BstSearch | ofproto.c:1013-1055 | the loop ends in the node `DecisionTree.Search` describes, a leaf if the tree is complete and all features are supplied |
| TreeNodes.Classify | ofproto.c:725-801 | parsing, rebuilding and searching a printed tree yields the leaf it decides for, never null if all features are supplied |

## Left out

- Netlink, sk_buff parsing, hashing, `tc_classify`, statistics dumps and module set-up: the flow index, the ECN capability of
  a packet and the progress of the clock are inputs.
- sk_buff head and tail pointers of a flow: the queue is a sequence; packet lengths are positive.
- The 32-bit widths of byte and packet counters and of backlogs; they are unbounded integers here. `count`, `rec_inv_sqrt`,
  all times, and deficits and quantum are modelled with their widths.
- Byte totals reported to the parent: the ledger counts packets, since in the congestion-notice case the code reports
  other bytes than it dropped.
- The drop log inside the dequeue: `DropLog` stands beside `Qdisc`, its entries are opaque.
- The reader's own walk over the snapshot; what follows once the list starts with a freed node; and the clean-up after a
  declaration with no snapshot, or an empty one, which follows a null mark.
- versions.h, the classifier, rule collections and eviction heaps are not in the repository: visibility is "added by and not yet
  removed in", and the eviction groups of a table are one list.
- Rule and group objects: they are records in maps keyed by identity, so aliasing between them is not captured; reference
  counts, mutexes, RCU grace periods, the expirable list and meters are left out.
- GroupMod.GroupStartFaithful: does not cover group deletion and the two bucket commands, which delete flows and copy buckets.
- GroupMod.GroupRevertUndoesStart: does not cover the revert of a group deletion.
- OfprotoSwitch.Ofproto.CheckActions: does not cover the check of meters, which are left out.
- Port mods and packet-outs in bundles, and learn-with-delete inside multi-version bundles.
- FlowRuns.ReachableTidily: is about runs whose failed bundles were tidy; `BundleTidy.CommitInvIff` shows that any other failed bundle
  breaks the invariant, `FlowRuns.ReachableAnyhow` and `FlowRuns.ReachableSparing` state what holds all the same.
- FlowRuns.ReachableSparing: is about runs in which no bundle failed after an eviction, by `BundleKeeps.CommitSoundIff` exactly those
  bundles after which heaps and counters are not all exact: the victim stands in its heap twice, and may be
  chosen again after it was removed. The pointer from a rule to its eviction group, by which the code takes out one of the two entries
  at most, is not modelled.
- OfprotoSwitch.Ofproto.JoinGroups: reports a missing group, on which the code aborts, and goes on with the others; likewise
  `LeaveGroups`, `RuleInsert` and `RuleRemove`. When none is missing, `BundleGroups.BundleFindsGroups` says.
- OfprotoSwitch.Ofproto.FindRule: which of several visible rules with one key the classifier returns is not known from the repository;
  the model takes the oldest. There are never several unless a failed bundle was not tidy.
- Qdisc.FqCodelQdisc.ChangeSettings: asks for a quantum other than 2^31, for which a dequeue in the trimming loop may not end.
- DropLog.DropList.LogDrop: asks that the clean-up it triggers does not follow a null mark or leave the list starting with a freed node.
- DecisionTree.Search: where the source reads through a null pointer, with a null root or an item that has no name, it
  gives an answer or has no counterpart: items have names here, and a null root is answered by null.
- TreeNodes.BstSearch: likewise answers a null root with null.
- FqCodelInv.DequeueReports: counts of drops in the parent are packets; of bytes see the ledger above.
- Starvation.NoFlowStarves: is about runs of enqueues and dequeue passes under one quantum below 2^31, after any run under that quantum.
- Fairness.RoundRobinFairness: deficits are bounded from the start under one quantum; after the quantum was lowered,
  deficits granted before may exceed it until they are spent.
- Calls to connection managers and providers: reports and statistics of finished mods have no effect on the tables.
- OfprotoSwitch.Ofproto.ChooseRuleToEvict: which of the rules in a heap stands on top is not part of the model.
- OfprotoSwitch.Ofproto.CollectMatching: visits rules in the order of their identities, for the order of hash buckets and tries is
  not part of the model.
- PortAlloc.PortNumbers.Alloc: asks that the search ends, for the source does not return otherwise.
- TreeWire.ParseText: C string buffers one byte too short for their terminator are not modelled, nor numbers out of
  the range of a long; thresholds are text, given a value by an arbitrary function in place of `atof`.
- DecisionTree.PrintedFields: takes the order of the graph description (a node, the edge to it, its subtrees) as given, and a root
  numbered 0.
- The UDP collectors, `EXP/hash_lin.h`, `flow.c`, `createtree.c`, `new_fsm.c`, `sch_api.c` and the other Python scripts: near-copies,
  stubs or easy members.
