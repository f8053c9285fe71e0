# Verified model of daruma's replica sync and plan graph

daruma keeps tasks, projects and plans in an append-only event log. A desktop device works offline on its
own log and projected rows, pushes its events through an outbox and folds in the server's. This project models
that sync, the algorithms over plans, task links and source chains, and three smaller protocols, and proves what
they keep.

| files | subject |
|---|---|
| `Events`, `Tables`, `Traces` | events, what a replay leaves in the tables, and when two replays of one set of events give the same rows |
| `Replica` | the device's replica as a class: one remote event, a page, a repair, a whole sync |
| `Orders`, `ReplicaRuns`, `ReplicaSteps`, `ReplicaTheorems`, `ReplicaLimits` | every run of commands, crashes, pushes, deliveries and repairs, and the exact limits of what holds |
| `Outbox`, `FindLost`, `Delivery`, `Conservation` | the outbox as a class, the search for lost events, and every run of both |
| `Fanout`, `Resolver`, `Relations` | waves of a plan, the next task for an agent, links between tasks |
| `Sets`, `Chains`, `Sources`, `Parents` | source chains and plan parents: graphs with one link up from each node |
| `WsHandoff`, `GraphIndex`, `Conflict` | snapshot and live hand-off, catch-up of the sidecar index, order of a merge |

A database transaction is one atomic step. Tables are maps, sets and sequences held in the fields of classes;
the methods of those classes are proved equal to functions on their whole state, and the theorems are about
every run of those functions. Network answers, failures and what other devices do are parameters of a run.

The replica's rows are compared through the *trace*: the events whose projectors ran, in the order they ran,
with repeats. `Before(trace, x, y)` says that `x` did not run again after `y` last did. The rows are always the
replay of the trace; the theorems say which pairs the trace has in the server's order. Two events are *related* when
`same_subject` says so or when they *clash*: some row keeps what the later of the two left there. `Orders.Owed` lists
the related pairs whose order the rows owe to the server's log, or to the local log for what the cursor has still to
pass; one pair is exempt, that of two clashing events of different subjects which the device logged the other way
round since its last baseline (`Orders.Inverted`).

## Where the code does less than its comments say

Each is proved: a concrete run or input, and the exact condition under which the code does what it should.

- A command whose projectors are still running is said to be safe to catch up with
  (`apps/desktop/src/replica.rs:149-151`). If the cursor has passed the echo of such a command and another device's
  event on the same task lands before the projectors run, the command undoes that event and every flag says
  verified: `ReplicaLimits.StalledCommandDivergesIff`. An event lands in order if and only if the cursor has passed
  no related event that is still to be projected: `ReplicaLimits.LandingIsSafeIff`; a repair, if and only if what is
  left of a running command is related to nothing it would end up behind: `ReplicaLimits.RepairIsSafeIff`.
- A repair folds in a running command and clears its mark in `desktop_unprojected`. If the command then dies half
  way through running again, nothing flags it: `ReplicaLimits.HalfReplayedCommandDivergesIff`, for the command that
  splits a task in `ReplicaLimits.HalfReplayedSplitDiverges`, and exactly when, in
  `ReplicaLimits.CrashIsSafeIffNotTorn`.
- `same_subject` is meant to tell which events may change places. Two kinds of event may not though it says so: a
  split writes its subtasks' rows under the parent's id, and the create of a project replaces any other project of
  its slug, which is unique (`crates/storage/src/project_repo.rs:241-263`, `crates/storage/migrations/0018_project_slug.sql`).
  `Events.SubjectsDecideOutcome` shows that they are all. Logged here before another device's event lands and echoed
  after it, such an event leaves the rows wrong for good, exactly when `ReplicaLimits.InvertedPairDivergesIff` says;
  two projects of one slug are the case in `ReplicaLimits.SlugTakenDiverges`.
- Redelivery of an event at or below the cursor changes nothing exactly when the event is in the local log; after
  a start from a snapshot it is not: `ReplicaTheorems.RedeliveryIsHarmlessIffLogged`.
- A task that once blocked another, was reopened and linked to it again cannot be finished any more: its link cannot
  become history twice. `Relations.FinishedBlockerCannotFinishAgain`, and exactly when in
  `Relations.RelationTable.FinishTask`. The links retired before the refusal stay retired.
- The depth guard on plan parents looks at the moved plan only. A plan with plans below it can be moved too deep:
  `Parents.AcceptedParentCanNestTooDeep`, and exactly when in `Parents.DepthKeptIff`.
- A chain of sources longer than the limit is said to be impossible under the checks (`crates/core/src/plan_source.rs:622-625`),
  but a chain can outgrow it through a node that has another branch below it: `Sources.AcceptedLinksCanGrowTooLong`,
  and exactly when in `Sources.ChainsStayShortIff`.
- A storage error while a socket subscribes reads as an empty log and an empty page that promises no more, so events
  can be lost unnoticed: exactly when in `WsHandoff.EachOnceDespiteFailureIff`.
- An index whose cursor has no event id resumes over a restored log that has grown back past it:
  `GraphIndex.ForgottenIdKeepsStaleRow`, and exactly when in `GraphIndex.ReplayedIsTheLogIff`.

## Model

| member | source | states |
|---|---|---|
| Events.ApplyRow | crates/storage/src/task_repo.rs:303-518 | What the projectors leave in one row depends on that row and the event's effect on it alone |
| Events.FoldIsRowwise | crates/storage/src/project_repo.rs:194-263 | A replay can be followed one row at a time, also where a project is dropped because another takes its slug |
| Events.ClashIffNotCommute | apps/desktop/src/replica.rs:562-569 | Two events give the same tables in either order, from any tables, if and only if they clash on no row |
| Events.UnrelatedClashIffSlugTaken | apps/desktop/src/replica.rs:562-569 | Of two events that share no subject and write only rows of their own, exactly two creates of projects with one slug clash |
| Events.SubjectsDecideOutcome | apps/desktop/src/replica.rs:562-569 | An event may change places with every unrelated well-keyed one if and only if it writes only rows of its own task and project and creates no project |
| Tables.RowStandsIff | crates/storage/src/project_repo.rs:194-263 | After a replay a row is there if and only if some event created it and none after that removed it, created it again or, for a project, took its slug |
| Tables.OneProjectPerSlug | crates/storage/migrations/0018_project_slug.sql:18 | No replay leaves two projects of one slug |
| Tables.LastStatusStays | crates/storage/src/task_repo.rs:303-518 | A stored task has the status the last status change or completion gave it, whatever reopening, closing and other events came after |
| Traces.EarlierRunsAbsorbed | crates/storage/src/comment_repo.rs:170-206 | An event that runs again makes every earlier run of it irrelevant to each row |
| Traces.RunsLast | apps/desktop/src/replica.rs:439-491 | An event whose later company on a row commutes with it there might as well have run last, once |
| Traces.SameOrderSameRow | apps/desktop/src/replica.rs:439-491 | A row is decided by which events can do something to it and by the order in which those that clash on it last ran, whatever else ran and however often |
| Traces.TraceLemma | apps/desktop/src/replica.rs:562-569 | Duplicate-free replays of the same events that agree on the order of clashing pairs give the same tables |
| Replica.Replica.IsOvertaken | apps/desktop/src/replica.rs:533-560 | Finds exactly whether a logged event after the position, at or below the bound, shares its subject and is not waiting for its echo |
| Replica.Replica.ApplyRemoteEvent | apps/desktop/src/replica.rs:439-491 | One remote event in one transaction: log, rows, cursor, bound, marks and flags after an echo, an unseen event and a redelivery, and whether it was unseen |
| Replica.Replica.ApplyRemoteEvents | apps/desktop/src/replica.rs:405-424 | A page is its events in turn; the counters count what was fetched and what was new |
| Replica.FoldLocalOnly | apps/desktop/src/replica.rs:573-587 | One page of local events added to the rows, without those the server has, and whether any is left |
| Replica.Replica.FoldServerLog | apps/desktop/src/replica.rs:243-263 | Pages of the server's log give the replay of exactly its events up to the cursor, and their ids |
| Replica.PreparedSurvivesCommits | apps/desktop/src/replica.rs:243-323 | Commands committed between a repair's reads and its write do not outdate what was read |
| Replica.Replica.WriteRebuild | apps/desktop/src/replica.rs:282-323 | The write transaction replaces the rows by the replay of the server's events up to the cursor and then every other local event, clears the unprojected marks, never lowers the cursor, and leaves the order flag off exactly when the cursor moved meanwhile; over a verified replica it does nothing |
| Replica.Replica.RebuildFromLog | apps/desktop/src/replica.rs:243-323 | A repair changes everything as promised or, when a fetch fails or the server's log is empty under a cursor past 0, nothing |
| Replica.Replica.CatchUp | apps/desktop/src/replica.rs:148-205 | A whole sync takes the cursor from where it starts (its old place, the snapshot's, or 0) to the end of a page past it, with every event of that stretch in the log and nothing else new, and ends verified; with every request answered it fails exactly when the server's log is empty under a cursor past 0 and a repair was due; a failed request leaves it between two of its transactions |
| Replica.Replica.StartIfNew | apps/desktop/src/replica.rs:170-192 | At cursor 0 the rows of a consistent snapshot are written over those there are, with its cursor; without one the cursor stays at 0; either way all flags are on and the bound is reset |
| Orders.EchoBehindPassed | apps/desktop/src/replica.rs:533-560 | Whatever was passed before an echo that was not found overtaken was taken in by the last baseline, or logged before it, or is of another subject and logged after it, also after a repair reset the bound to 0 |
| Orders.EchoKeepsOrder | apps/desktop/src/replica.rs:444-462 | Passing an echo that was not overtaken leaves everything owed in place |
| Orders.LandedKeepsOrderIff | apps/desktop/src/replica.rs:463-491 | An unseen remote event takes its place if and only if nothing related to it was passed and is still to be projected |
| Orders.RerunKeepsOrder | apps/desktop/src/replica.rs:300-317 | A command that runs an event again after a repair breaks no order but that with the events it has yet to run again |
| Orders.RepairOrdersIff | apps/desktop/src/replica.rs:243-323 | A repair puts every event in its place whatever the rows were before, and a running command too if and only if nothing its rest belongs before stays behind |
| ReplicaSteps.StepKeepsInv | apps/desktop/src/replica.rs:148-205 | Every step of a device and its server keeps the invariant: commit, project, finish, crash, push, another device's write, delivery, check, start at 0, start on a snapshot, repair |
| ReplicaSteps.RunKeepsInv | apps/desktop/src/replica.rs:148-205 | The invariant holds after every run, from a new device or one an older version left in any state |
| ReplicaTheorems.OrderSoundness | apps/desktop/src/replica.rs:439-491 | In every reachable state that is verified, with nothing left unprojected by a stopped command, same-subject server events at or below the cursor took effect in server order, and clashing ones too unless logged the other way round; those of a running command once it is through |
| ReplicaTheorems.RowFollowsServer | apps/desktop/src/replica.rs:439-491 | A row on which nothing is pending already holds what the server's log up to the cursor says |
| ReplicaTheorems.Convergence | apps/desktop/src/replica.rs:148-205 | At the server's tip, with nothing of its own left to send or to project and nothing inverted, a verified replica's rows are the plain replay of the server's log, splits and projects of one slug included |
| ReplicaTheorems.KeyedNeverInverted | apps/desktop/src/replica.rs:562-569 | Where no event writes another subject's rows and no two projects share a slug, nothing can be inverted |
| ReplicaTheorems.CrashSafety | apps/desktop/src/replica.rs:149-171 | After a stop at any point a flag is off, or something is marked unprojected, or the rows are in order |
| ReplicaTheorems.PagesCollapse | apps/desktop/src/replica.rs:405-424 | In any state, overlapping, repeated and stale pages of known events leave exactly what one pass over the same events leaves, and the cursor never goes back |
| ReplicaTheorems.RedeliveryIsHarmlessIffLogged | apps/desktop/src/replica.rs:439-491 | Redelivering an event at or below the cursor changes nothing at all if and only if it is in the local log |
| ReplicaTheorems.RepairReplaysEachOnce | apps/desktop/src/replica.rs:243-323 | A repair replays the server's events up to the cursor, then every other logged event in log order, each once |
| ReplicaTheorems.CatchUpRepairs | apps/desktop/src/replica.rs:148-205 | An uninterrupted sync, from any state, ends verified with nothing unprojected, and is a run of the state machine |
| ReplicaTheorems.CatchUpConverges | apps/desktop/src/replica.rs:148-205 | Such a sync that reaches the tip leaves the server's rows when the device has nothing of its own left and its log and the server's agree on clashing pairs |
| ReplicaTheorems.SyncsReachTheTip | apps/desktop/src/replica.rs:148-205 | However small the pages, as many syncs as the server has events reach its tip; the cursor and the log never go back, and every event passed is in the log |
| ReplicaTheorems.SyncsConverge | apps/desktop/src/replica.rs:148-205 | From any state of the replica, at least one sync and at least as many as the server has events leave the plain replay of its log and the cursor at its tip, when the device has nothing of its own left and its log and the server's agree on clashing pairs |
| ReplicaLimits.LandingIsSafeIff | apps/desktop/src/replica.rs:148-152 | The next unseen event lands in order if and only if the cursor has passed no related event a running command has yet to project |
| ReplicaLimits.RepairIsSafeIff | apps/desktop/src/replica.rs:243-323 | A repair leaves the order in place if and only if the rest of a running command is related to nothing it would end up behind |
| ReplicaLimits.CrashIsSafeIffNotTorn | apps/desktop/src/replica.rs:300-317 | A crash nothing will notice leaves the rows in order if and only if the command was not, since the last repair, between two events of which one belongs before the other, on one subject or on one row |
| ReplicaLimits.StalledCommandDivergesIff | apps/desktop/src/replica.rs:148-152 | For any two events, the run in which one is stalled behind its echo while the other lands ends silently wrong if and only if running it again changes a row |
| ReplicaLimits.StalledCommandDiverges | apps/desktop/src/replica.rs:148-152 | It does so for the create of a task and another device's edit |
| ReplicaLimits.HalfReplayedCommandDivergesIff | apps/desktop/src/replica.rs:300-317 | For any command of two events, the run in which it dies between them after a repair ends silently wrong if and only if running the first again changes a row |
| ReplicaLimits.HalfReplayedSplitDiverges | crates/core/src/handler.rs:2276-2283 | It does so for a split and the create of its subtask, which share no subject |
| ReplicaLimits.InvertedPairDivergesIff | apps/desktop/src/replica.rs:444-462 | For any two events, the run in which one made here is echoed after the other landed ends silently wrong if and only if `same_subject` does not relate them and the order changes a row |
| ReplicaLimits.SlugTakenDiverges | crates/storage/src/project_repo.rs:241-263 | It does so for two projects of one slug |
| ReplicaLimits.FlaggedForAnOvertaker | apps/desktop/src/replica.rs:533-560 | An echo is flagged only for a passed same-subject event logged after it, and always for one passed since the last baseline |
| Outbox.OutboxTables.AppendBatch | apps/desktop/src/outbox.rs:446-465 | One command's events go to the end of the log as the device's own, each with an entry that knows its place, and each marked as still to be projected and to be echoed |
| Outbox.OutboxTables.Enqueue | apps/desktop/src/outbox.rs:513-533 | A new entry takes the device's next number |
| Outbox.OutboxTables.CollectHeld | apps/desktop/src/outbox.rs:261-274 | Each task is held from its first unconfirmed event on |
| Outbox.HeldFrom | apps/desktop/src/outbox.rs:261-274 | An unconfirmed event holds its task from there or earlier |
| Outbox.OutboxTables.CollectSendable | apps/desktop/src/outbox.rs:237-248 | At most `limit` entries, one if the limit is 0; if there are fewer, then every entry neither delivered nor refused nor held behind an unconfirmed event of its task is listed; nothing else is, nothing twice, and all by place in the log |
| Outbox.SendableOldestFirst | apps/desktop/src/outbox.rs:218-248 | What goes out is pending and not held, goes out oldest first, and nothing older that may go out is skipped |
| Outbox.OutboxTables.SetFlushed | apps/desktop/src/outbox.rs:380-391 | Counts one delivered entry more exactly the first time, and tells which |
| Outbox.OutboxTables.SetRejected | apps/desktop/src/outbox.rs:395-407 | The entry is not pending from then on, every other entry is as pending as before, and what it was first refused for stays |
| Outbox.OutboxTables.Requeue | apps/desktop/src/outbox.rs:410-416 | Every entry that was not delivered is pending again, and the count is of those that became so |
| Outbox.OutboxTables.FlushPending | apps/desktop/src/flush.rs:36-67 | Fails exactly when one of its requests or answers is lost; a refused entry becomes a dead letter and lets the rest by, every other answered one is delivered and on the server, the rest is as it was, and attempted is flushed plus rejected |
| Outbox.FlushesDrain | apps/desktop/src/flush.rs:36-67 | Whatever the server refuses and however small the limit, as many flushes as there are pending entries leave none, when nothing is held and no answer is lost |
| FindLost.ServerEventIds | apps/desktop/src/outbox.rs:594-617 | Every id in the server's log when the last page came back, though it grows in between; fails only for an empty log under a cursor past 0 |
| FindLost.RecordLostEvents | apps/desktop/src/outbox.rs:297-333 | Records exactly the old kinds of event of the local user that have no origin and no entry, below the tip read first, and are missing from the log read after it, once; fails exactly when there is such an event and the server's log is empty under a cursor past 0 |
| FindLost.RestoreLostEvents | apps/desktop/src/outbox.rs:344-378 | Queues exactly what is on record and still missing, in log order, clears the record, and counts what it queued; fails exactly when something is on record and the server's log is empty under a cursor past 0 |
| Delivery.SendableInOrder | apps/desktop/src/outbox.rs:237-248 | When a flush starts, every earlier event of the same task is refused, on the server, or ahead of it in the same flush |
| Delivery.RunKeepsInv | apps/desktop/src/outbox.rs:446-465 | Appends, incoming events, searches, restores, several flushes at once, lost answers and requeues keep the outbox sound and in order |
| Delivery.DeliveryOrder | apps/desktop/src/flush.rs:36-67 | In every run, when one of the device's events reaches the server every earlier one of its task is there or was refused; the server has one copy of each |
| Delivery.DeliveryOrderUnrefused | apps/desktop/src/flush.rs:36-67 | Without refusals the server receives the device's events of each task in log order, restored ones included |
| Delivery.LostEventsFound | apps/desktop/src/outbox.rs:288-333 | No event that came from the server is ever recorded as lost, and once the log was searched every event of the local user of an old kind, without origin and entry, is on record or on the server, whatever arrives meanwhile |
| Conservation.NumbersRunFromOne | apps/desktop/src/outbox.rs:513-533 | A device's numbers are 1 to n without gap or repeat, in queue order |
| Conservation.OutboxConservation | apps/desktop/src/outbox.rs:446-465 | Every committed local event has exactly one entry, delivered entries are on the server, and numbering survives every run |
| Conservation.EachEntryInOnePlace | apps/desktop/src/outbox.rs:380-416 | With one flusher at a time an entry is pending, delivered or refused, and only one of them |
| Fanout.PlanFanout | crates/core/src/plan_readiness.rs:96-178 | Terminates. Only plan tasks in inbox, to do, in progress or in review are in waves; what they depend on is a done task of the plan or in an earlier wave, what blocks them is done or in an earlier wave; past the first wave each waits for one in the wave before; an unfinished plan task left out waits for something not done that is left out too |
| Fanout.LeastFixpoint | crates/core/src/plan_readiness.rs:148-175 | What is scheduled is in every set that holds each task all of whose blockers it holds |
| Fanout.WaveIsEarliest | crates/core/src/plan_readiness.rs:148-175 | A task comes after all it waits for and, past the first wave, right after one of them |
| Fanout.WavesDisjoint | crates/core/src/plan_readiness.rs:148-175 | No task is in two waves |
| Fanout.InPlanOrderOnceEach | crates/core/src/plan_readiness.rs:149-154 | A wave lists no task twice, and keeps the order of the plan |
| Fanout.LeftOutIffStuck | crates/core/src/plan_readiness.rs:155-158 | A task is left out if and only if a chain of blockers leads from it round a cycle or to something never scheduled |
| Resolver.Next | crates/core/src/plan_concurrency.rs:58-147 | The first task of an active plan that passes every test, and none exactly when none does; what is handed out is to do, in progress or in review |
| Resolver.OfferedMeans | crates/core/src/plan_concurrency.rs:81-130 | A task passes exactly when it is to do, in progress or in review, all it depends on is done, no task that exists and is not done blocks it, and nobody else claims it |
| Resolver.OfferedIffFirstWave | crates/core/src/plan_concurrency.rs:81-130 | A task that passes, has its dependencies in the plan and its blockers stored, is one of the first wave that may be taken, and conversely |
| Resolver.NextIsFirstOfFirstWave | crates/core/src/plan_concurrency.rs:58-147 | With dependencies inside the plan and blockers stored, the resolver hands out the first takeable task of the first wave, and none exactly when there is none |
| Relations.DetectCycle | crates/core/src/relation_enforcement.rs:24-60 | Accepts a Blocks link if and only if its start is unreachable from its end and fewer than 1000 Blocks rows leave what the end reaches; the two refusals are right too |
| Relations.LinkKeepsAcyclicIff | crates/core/src/relation_enforcement.rs:24-60 | A new link keeps an acyclic graph acyclic if and only if nothing leads back from its end |
| Relations.RelationTable.LinkTasks | crates/core/src/handler.rs:3397-3427 | A link is stored exactly when the guard accepts it and it is new, nothing else changes, and each refusal names its cause |
| Relations.RelationTable.UnlinkTasks | crates/core/src/handler.rs:3429-3460 | Removing a link reports its target unblocked exactly when it was the last thing holding it and all its blockers exist |
| Relations.UnlinkingFreesLikeFinishing | crates/core/src/handler.rs:3445-3457 | A task is freed by taking away a link exactly when finishing that blocker would free it |
| Relations.RelationTable.FinishTask | crates/core/src/handler.rs:1180-1247 | A blocked task is refused; otherwise its links become history up to the first that was history before, it finishes exactly when there is none, and the tasks reported freed are the right ones |
| Relations.FinishedBlockerCannotFinishAgain | crates/storage/src/relation_repo.rs:65-75 | Linked, finished, linked again: the second finish is refused |
| Relations.RunKeepsAcyclic | crates/core/src/relation_enforcement.rs:24-60 | Over every run of links, unlinks and finishes no task comes to block itself |
| Relations.RunKeepsUnique | crates/storage/migrations/0009_task_relations.sql:7-15 | Over every such run ids and links stay unique |
| Relations.ListActiveBlockers | crates/core/src/relation_enforcement.rs:66-82 | Exactly the blockers that exist and are not done, in link order; none exactly when each is done or gone |
| Relations.ListDownstreamToUnblock | crates/core/src/relation_enforcement.rs:94-132 | Exactly the tasks held now that nothing holds once the blocker is done, among those all of whose blockers exist: those it holds while all others are done; none twice |
| Chains.OneChainDecides | crates/core/src/plan_source.rs:511-535 | When every changed link is on one node's chain and that chain ends, no node anywhere is above itself |
| Chains.AcyclicEnds | crates/core/src/plan_source.rs:515-535 | Without cycles every chain ends within as many steps as there are links |
| Sources.TurnFills | crates/domain/src/source.rs:37-51 | The fill-only merge and the fill-only upsert agree: each field that is set stays, and each that is not is taken over; neither changes a link that is set |
| Sources.TakenIs | crates/core/src/plan_source.rs:455-507 | A chain is taken up to the first node whose given link differs from one stored, or given earlier in the chain; that node keeps its link and what is above it is dropped, or the chain is refused, as `keep_existing` says; nothing set changes and no other source does |
| Sources.RelinkingIsNothing | crates/core/src/plan_source.rs:493-496 | Linking a chain again stores no event |
| Sources.TakenStaging | crates/core/src/plan_source.rs:455-507 | Whatever chain comes in, repeated refs and kept links included, set links stay and each new one is on the first node's chain |
| Sources.WalkFromFirstDecides | crates/core/src/plan_source.rs:511-535 | After the nodes are staged, the walk up from the first one ends if and only if no source is above itself |
| Sources.WalkUp | crates/core/src/plan_source.rs:515-535 | The walk over the staged nodes succeeds exactly when the chain ends within the limit; a cycle error means it never ends, a length error that it is longer |
| Sources.SourceDescendants | crates/storage/src/plan_repo.rs:314-335 | How far below a node the chains through it start, as far as a chain may reach |
| Sources.FitsIffChainsThroughFirstDo | crates/core/src/plan_source.rs:511-529 | Where chains are within the limit before, the length check passes if and only if every chain through the first node is within it after |
| Sources.LinkSources | crates/core/src/plan_source.rs:443-537 | Refuses a link that differs exactly where it is not to be kept; else stores the nodes up to the first such, warns of exactly that one with the link it keeps and the one it drops, and changes nothing else; refuses links with which a chain through the first node would not end within the limit |
| Sources.RunKeepsChains | crates/core/src/plan_source.rs:443-537 | Over every run of calls, with their events stored in full or cut off anywhere, no source is above itself and no field once set changes, links included |
| Sources.EveryChainEnds | crates/core/src/plan_source.rs:443-537 | After every such run each chain ends, within as many steps as there are links |
| Sources.ChainsStayShortIff | crates/core/src/plan_source.rs:511-529 | All chains stay within the limit if and only if what lies below each node of the new chain leaves room for what is above that node; the check looks below the first node only |
| Sources.AcceptedLinksCanGrowTooLong | crates/core/src/plan_source.rs:622-625 | Accepted links that make a chain longer than the limit |
| Sources.TopOf | crates/core/src/plan_source.rs:622-632 | The walk to the node to extend stops at the real top exactly when the chain is no longer than the bound |
| Sources.UpsertsKeepLinks | crates/storage/src/plan_repo.rs:872-900 | Stored events, also replayed ones, never change a set field or link |
| Parents.DetectParentCycle | crates/core/src/plan_concurrency.rs:158-194 | Accepts a parent exactly when its chain ends within three plans, none of them the plan itself |
| Parents.NewParentKeepsAcyclicIff | crates/core/src/plan_concurrency.rs:148-157 | A new parent, also for a plan that had one, closes a cycle exactly when the plan is above it |
| Parents.AcceptedParentKeepsAcyclic | crates/core/src/plan_concurrency.rs:158-194 | An accepted parent keeps plans without cycles |
| Parents.DepthKeptIff | crates/core/src/plan_concurrency.rs:16-17 | Plans stay as shallow as they should exactly when the parent's chain is short enough for every plan below the moved one |
| Parents.AcceptedParentCanNestTooDeep | crates/core/src/plan_concurrency.rs:158-194 | An accepted parent that nests a plan too deep |
| WsHandoff.FilterIsPrefix | apps/server/src/ws.rs:648-651 | Of a page in order, what is at or below the boundary is a prefix |
| WsHandoff.SnapshotCovers | apps/server/src/ws.rs:551-576 | A page promises more exactly when the history up to the boundary fills it; one that promises no more is all of that history though newer events filled part of it; one that promises more is all of it up to its end |
| WsHandoff.Socket.ReadPage | apps/server/src/ws.rs:551-576 | The page, whether more is promised and where it ends; a failed read is an empty page |
| WsHandoff.Socket.ForwardOne | apps/server/src/ws.rs:584-604 | What the socket will have sent in the end stays the same, and what it sends is past the boundary |
| WsHandoff.RunKeepsInv | apps/server/src/ws.rs:539-608 | In every interleaving of append, publish, subscribe, boundary, page and forwarding each event is accounted for once |
| WsHandoff.GotWhenRead | apps/server/src/ws.rs:539-608 | With both reads done an event after `since_seq` arrives once, unless it is between the end of a page that promises more and the boundary |
| WsHandoff.ExactlyOnce | apps/server/src/ws.rs:539-608 | When the page promises no more, page and live stream bring each event after `since_seq` exactly once |
| WsHandoff.EachOnceDespiteFailureIff | apps/server/src/ws.rs:549-556 | After a failed read they do so exactly when nothing after `since_seq` was published before subscribing, or was in the log |
| GraphIndex.GraphRepo.CatchUp | apps/server/src/workspace_graph.rs:19-60 | For any batch size the index ends at the end of the log with the effects of one stated sequence of events and the last event's id, and counts what it applied; an effect is one on keyed rows that stand in for nodes and edges |
| GraphIndex.Reason | apps/server/src/workspace_graph.rs:62-85 | The index starts over exactly when its cursor is past the end of the log, or remembers another id than the log has there |
| GraphIndex.ReplayedIsTheLogIff | apps/server/src/workspace_graph.rs:62-85 | That sequence is the present log if and only if the cursor remembers an id, or lies within the shared prefix, or is past the end |
| GraphIndex.AgreesWithReplayIf | apps/server/src/workspace_graph.rs:19-85 | Then the index equals one built from the present log alone |
| GraphIndex.ForgottenIdKeepsStaleRow | crates/storage/src/workspace_graph_repo.rs:990-1013 | An index without an id keeps a row of an event that is gone |
| Conflict.WinnerOutranks | crates/core/src/conflict.rs:50-87 | The winner is the one of higher rank: deletion, then completion, then time, then id, in either order of the arguments; and the reason given is the right one |
| Conflict.RankIsStrictOrder | crates/core/src/conflict.rs:82-87 | Rank is a strict total order |
| Conflict.SymmetricIff | crates/core/src/conflict.rs:50-80 | Which record comes first matters exactly for two different records of one rank |
| Conflict.WinnerIsHighest | crates/core/src/conflict.rs:50-80 | Whatever the pairing, the winner is one of the records and none outranks it |
| Conflict.MergeOrderDoesNotMatter | crates/core/src/conflict.rs:50-80 | Records with distinct ids have the same winner in every order and grouping |

## Left out

- The start from a snapshot over a log that is not empty, two local writers on one task at once, and two syncs both at cursor 0: the code states no order for them. The second sync of a repair is the cursor moving between its reads and its write.
- The start at cursor 0 reads the cursor and writes the baseline in two statements, and what may be sent is read in two (the held tasks, then the pending entries); here each is one step.
- Events.ApplyRow: does not model the unique `external_key` of a task (`crates/storage/migrations/0048_task_external_key.sql`), for which the second create of two tasks with one key fails, and with it the sync that delivers it.
- Columns only the first write sets, such as `started_at`: for them an event that runs again is not absorbed by its own later run, so `Traces.EarlierRunsAbsorbed` does not speak of them.
- The column `updated_event_seq`, which holds the event's place in the local log (`crates/storage/src/task_repo.rs:329`) and so differs between replicas.
- The activity feed, version history, usage counters, aliases of renamed projects and every projection the replica does not replace in a repair.
- A comment's row is keyed by its task and its id, as the events that write it name both; an id used under two tasks is not modelled.
- A created task without an id in its event, which the projector gives a new one on every replay.
- Gaps that a telemetry purge leaves in the server's numbering: in the replica and index models event k has number k. `WsHandoff` allows gaps, but no purge while a socket subscribes.
- The runs of `ReplicaRuns` leave out the steps that break the order: a landing, a repair and a crash where `LandingIsSafeIff`, `RepairIsSafeIff` and `CrashIsSafeIffNotTorn` say that they do, and the redelivery of an event that only a snapshot covered. `Happens` has all of them.
- ReplicaTheorems.Convergence: needs that no two clashing events of different subjects were logged one way and passed the other since the last baseline; the condition goes one way, since a later event may hide what the two left.
- `same_subject` and `target_task` cover the kinds of event a desktop replica projects; the others appear as events that touch no row.
- Resolver.NextIsFirstOfFirstWave: needs dependencies inside the plan and stored blockers, because the resolver and the waves treat the others differently; `Resolver.OfferedIffFirstWave` says how.
- Claims that expire while the resolver runs, and the expiry time it returns.
- A link check and the insert after it are one step: two links checked at the same time are not modelled. A deleted task's links are a run of unlinks.
- The other branches of `extend_source`, and how node fields are trimmed and refs normalised: single branches before `link_sources`.
- Project, channel and capability filters of a socket, which drop events from page and live stream alike, and a subscription without `since_seq`, which has no page.
- A slow consumer's dropped socket, and the live subscriber of the sidecar index.
- GraphIndex.GraphRepo.CatchUp: an event's effect on the sidecar index is not that on the graph's nodes and edges, but the replica's effect on rows in their place; and an event whose application fails or stops half way, which the code logs and goes on from, is not modelled.
- SQL, schema upgrades, HTTP, TLS, pairing, authentication, revocation, heartbeats, AI clients, command-line output and the editor extension.
