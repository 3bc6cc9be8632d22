# Verified model of the Daily Command Center stores

This project models the rules that the stores of Daily Command Center keep over their rows, and
proves them for every run. Tables are maps or sequences, a transaction under row locks is one step
(the conversion of points into money is interleaved step by step), random ids are fresh values,
instants, days and minutes are integers, and amounts are cents. Stores that update rows are classes
whose methods follow the statements and loops of the code; each method is proved against a function
of the old state. Theorems then say what that function does over whole runs, and, in terms of
fields, links and characters, which calls are taken (if and only if), what a row holds afterwards
and what stays. Only verification was done: nothing
here runs the original program.

- `TaskGraph`: creating tasks under parents named by row id or by local id, with references that
  dangle until a later row resolves them, and the ancestor walk that refuses cycles (`db.js`).
- `CompletionSubtree`, `Completion`: the queue over the alias links of a day, and the
  compare-and-set of completions with revisions and mutation ids next to plain writes (`db.js`).
- `TaskDependencies`, `TaskRoundTrip`: turning waiting edges when a prerequisite is completed or
  reopened, and what completing and reopening it leaves behind (`db.js`).
- `CompletionTransaction`: the two sides of one completion, its rows and its edges, on one store.
- `MeetingSweep`, `MeetingStore`, `MeetingFixpoint`: the calendar sweep as a function of the rows,
  its loops, and what a second sweep does (`meeting-materializer.js`).
- `TankOrder`, `BudgetTank`, `TankRuns`, `TankEffects`, `OverflowSpins`, `BudgetStore`: the ordered
  budget tank, its gates, funding, splits, claims, rollovers and spins, and the methods that perform them
  (`budget-store.js`, `reward-vault-store.js`).
- `MoneyChanger`: the conversion protocol under every interleaving with claims and rollovers.
- `Commitments`: the event-sourced commitments (`commitment-store.js`).
- `ConversationOAuth`: codes, refresh rotation and revocation (`conversation-oauth.js`; RFC 6749
  sections 4.1.2 and 6, RFC 7636 section 4.6, RFC 9700 section 4.14.2).
- `ImportManifest`: the depth-first validation of an import (`project-store.js`).
- `RepeatTemplate`, `TemplateVisits`, `FreeSlots`: template clamping and layout, and the slot engine
  (`responsibility-store.js`).
- `Reimbursement`: exact share splitting and payments (`reimbursement-store.js`).
- `CommentStripper`: the comment-stripping lexer (`js-comment-strip-fixture.js`).
- `Options`: the shared optional value.

`dafny verify dfyconfig.toml` checks the whole project.

## Where the code falls short of its promise

The model follows the code. Where a promised rule is not kept, a lemma names the exact condition
under which it is, or a run that breaks it.

- The parent relation can become cyclic through two kinds of requests. One reads a blank reference (a
  blank `subtaskOf` beside a `wrapId`, or a blank first reference): the walk then starts elsewhere
  than the edge rule leads. The other mints a task with an id that looks like a day root's and hangs
  it under a task: a later task that names it by parent id skips the walk.
  `SafeExactlyWhenCareful` says exactly which requests bring no cycle, whatever the store and
  whatever careful requests follow.
- A replayed completion rewrites rows when the accepted request had changed neither the state nor
  the revision and another mutation came in between (`ReplayIsSilentExactlyAfterADraw`).
- A replayed generic update passes as the same mutation and puts its own bag back over what was
  written since (`ReplayedUpdatePutsItsBagBack`). It leaves the row alone if and only if it is
  refused or the row holds what it carries (`ReplayedUpdateIsSilentExactlyWhenStored`); it never
  flips the task (`ReplayedUpdateNeverFlips`).
- Completing a prerequisite and reopening it does not always bring the waiting markers back: tasks
  finished along with it lose theirs, edges of other finished rows stay released, and a day stamped on
  a step can add a marker that was not there (`StampedDaysCanAddMarkers`).
  `MarkersComeBackExactlyWhenTheyReturn` says for every task, before anything is written, whether it
  gets its marker set back.
- A plain write protects completion state only while the stored row is a task row
  (`OnlyTaskRowsAreProtected`).
- A sweep moves or detaches a completed meeting that is filed under an open one
  (`CompletedStayExactlyWhenFree`), and repeating a sweep can change rows when an open meeting is
  filed under another open one (`SweepsSettleExactlyWhenOpenAreFree`).
- A recurring block can never be split, although the code that writes the copy provides for it:
  its unlimited uses are NULL, which `Number` turns into 0 (`RecurringIsNeverSplit`).
- A repeat without a template never meets the midnight error when its rows are built: past midnight
  the task gets an end before its start (`PlainTaskWrapsExactlyPastMidnight`).
- A client that uses the key of a carry-over for a conversion makes that carry-over vanish
  (`ClientKeyCanSwallowCarryOver`).
- Presenting a spent authorization code is refused but does not revoke the grant, which section
  4.1.2 of RFC 6749 recommends (`SpentCodeOnlyRefuses`).

## Model

| member | source | states |
|---|---|---|
| TaskGraph.Resolve | db.js:199-220 | what a reference resolves to is a candidate of the workspace, and never for a blank reference |
| TaskGraph.RowIdResolves | pg-schema.js:1078-1098 | a live task row of the workspace is found by its row id before any local id |
| TaskGraph.ResolveIsExact | db.js:199-220 | a reference that is not blank resolves to exactly the row that wins: by row id, else by local id with live before deleted and own day before undated, when no other row stands as high |
| TaskGraph.FirstStepIsStart | db.js:322-371 | every parent the edge rule gives an accepted careful row is a start of the ancestor walk or a row with a day-root id |
| TaskGraph.LowRowIsBefore | db.js:181-186 | a task with a day-root id never hangs under a row created later |
| TaskGraph.WalkFollowsPath | db.js:363-374 | the walk meets a row that names the new one whenever some path leads to it, whatever was visited before |
| TaskGraph.WalkFindsOnlyWaysBack | db.js:363-374 | in an acyclic store the walk refuses only when a path from a start leads to a row that names the new one |
| TaskGraph.WalkIsExact | db.js:363-374 | in an acyclic store the walk refuses if and only if some path from a start leads to a row that names the new one |
| TaskGraph.WayIsRefused | db.js:363-375 | no path from a parent of an accepted row ends in a row that hangs under it |
| TaskGraph.CreateKeepsAcyclic | db.js:294-446 | a careful create keeps the parent relation acyclic, also when it resolves dangling references |
| TaskGraph.CreateIsExact | db.js:294-376 | a create is accepted with a parent if and only if its id is free, its references give that parent and no path leads back; it then stores what was asked for |
| TaskGraph.DeleteKeepsAcyclic | db.js:1341-1361 | a soft delete keeps the relation acyclic |
| TaskGraph.EveryRunIsAcyclic | db.js:294-376 | over any run of task creates, soft deletes and new days the relation by row id or same-day local id stays acyclic |
| TaskGraph.BlankReferenceClosesACycle | db.js:322-366 | for every request that reads a blank reference there is a sound acyclic store in which it is accepted and closes a cycle |
| TaskGraph.PosingAsDayRootClosesACycle | db.js:261-345 | for every day-root id and workspace, a task that poses as a day root is accepted in some sound acyclic store in which one more careful create closes a cycle through it |
| TaskGraph.SafeExactlyWhenCareful | db.js:261-375 | a request brings no cycle, in any store and before any careful operations, if and only if it is careful or names itself |
| TaskGraph.TaskStore.CreateBlock | db.js:294-446 | the statements of a create give exactly the new rows; a taken id leaves everything as it was |
| TaskGraph.TaskStore.DeleteBlock | db.js:1341-1361 | the row becomes a tombstone and nothing else changes |
| CompletionSubtree.IndexLinks | db.js:596-603 | the index files exactly the rows with a parent reference that do not merely ride along |
| CompletionSubtree.CollectCompletionSubtreeIds | db.js:596-612 | the queue stops on any links and returns exactly the closure of the start row |
| Completion.PlainWriteNeverFlips | db.js:530-558 | whatever bag is written, done bit, revision and mutation id of a task row stay, and a completion keeps its time and author |
| Completion.OnlyTaskRowsAreProtected | db.js:548-558 | a live row is safe from every plain write if and only if it is a task row |
| Completion.CompletionMarksExactlyTheSubtree | db.js:824-879 | completing marks done exactly the target and the reached rows; reopening touches the target alone |
| Completion.ReachedIsWalkable | db.js:590-594 | what a completion writes besides its target is a walkable row of the target's day |
| Completion.StepsAreTaken | db.js:590-612 | every live block of the day that names a written row, by id or local id, as its task or parent and does not merely ride along is written too |
| Completion.NothingElseIsTaken | db.js:590-612 | the written rows are the smallest such set that holds the target |
| Completion.RequestIsStoredExactly | db.js:787-879 | a request is stored if and only if its live task row is at the expected revision and does not already show the mutation; field by field, what a completed or reopened row then holds |
| Completion.WriteIsStoredExactly | db.js:1022-1049 | a write is stored if and only if its row is live, nothing else refuses it and the base it names is current or the mutation is the stored one |
| Completion.WriteStoresItsBag | db.js:980-1130 | what a write stores: parent and day as sent, and of the bag everything but the completion fields of a task row |
| Completion.ReopeningRestoresTheDay | db.js:878-887 | reopening takes back the stamped day and the backlog kind that completing had changed |
| Completion.StepKeepsOrDraws | db.js:485-558 | a transaction leaves revision and done bit of a task row alone or draws a new revision |
| Completion.EqualRevisionsMeanEqualState | db.js:485-558 | no ABA: in a run two states with the same revision of a task have the same done bit |
| Completion.AtMostOneFlipPerRevision | db.js:787-793 | of two flips based on the same expected revision at most one commits |
| Completion.ReplayIsSilentExactlyAfterADraw | db.js:787-815 | the replay of an accepted request never writes a row again if and only if the request drew a revision |
| Completion.ReplayedUpdatePutsItsBagBack | db.js:1022-1049 | every accepted flip, replayed after a plain write of another text, passes and puts its own text back |
| Completion.ReplayedUpdateIsSilentExactlyWhenStored | db.js:1022-1130 | in every run an accepted update that comes again leaves its row as it is if and only if it is refused or the row holds what it carries |
| Completion.ReplayedUpdateNeverFlips | db.js:485-558 | in every run it changes neither done bit nor revision nor mutation id |
| Completion.TaskRows.UpdateBlock | db.js:980-1130 | the statements of a write give the row that the intent and the stored completion fields determine, and commit exactly when the base passes |
| Completion.TaskRows.SelectRows | db.js:824-835 | the rows to write are exactly the target and the closure, each once |
| Completion.FindTarget | db.js:678-703 | a reference means the live row of that id, else the only live row of that local id and day, else it is missing or ambiguous |
| Completion.TaskRows.SetTaskCompletion | db.js:618-978 | finds the row of the reference, then stores, answers as duplicate or refuses, and the new rows are exactly the specified ones |
| TaskDependencies.FindUnique | db.js:2811-2834 | a found dependent is live, and is the row of that id or the only match by local id; it is ambiguous exactly when two rows match |
| TaskDependencies.SameShapesSameTree | db.js:1693-1721 | the subtree query depends on links and dates only, not on markers or status |
| TaskDependencies.TreeIsEverythingUnder | db.js:1693-1721 | the subtree of a live task is everything that some chain of links of any length leads to, also on cyclic links |
| TaskDependencies.TurnsMarkTasks | db.js:1183-1211 | over several edges a task loses, or while unfinished gains, exactly the edges whose dependents' subtrees hold it |
| TaskDependencies.TurnsMarkWhatWaits | db.js:1183-1211 | a task loses, or while unfinished gains, exactly the turned edges by which it waits: it or a task over it, over any number of links, is the edge's dependent |
| TaskDependencies.TurnsNoteInconsistency | db.js:1191-1213 | a finished task is noted as inconsistent, with exactly those edges, when a prerequisite is reopened |
| TaskDependencies.FlipTurnsExactly | db.js:1162-1176 | completing turns the live open edges on the task, reopening the released ones |
| TaskDependencies.TurnsSetReadyAt | db.js:1175-1184 | a released edge is ready since the flip, an opened one is not ready |
| TaskDependencies.TurnsSetStatus | db.js:1175-1184 | exactly the turned edges change status, wherever they are filed |
| TaskDependencies.TurnAll | db.js:1174-1222 | the nested loops compute the turned rows, or give up at the first ambiguous dependent |
| TaskDependencies.DependencyStore.PropagateTaskDependencies | db.js:1155-1225 | the transaction turns all edges, or none when a reference is ambiguous or the done bit did not change |
| TaskRoundTrip.EdgesComeBack | db.js:824-950 | after completing a prerequisite with its steps and reopening it, with the propagations of both, each of its edges is open, unless it was neither open nor released before |
| TaskRoundTrip.MarkersAfterRoundTrip | db.js:1155-1225 | any task then has its markers without those its finishing write dropped and the propagations released, and with those turned back over it |
| TaskRoundTrip.MarkersComeBackExactlyWhenTheyReturn | db.js:824-950 | a task gets its marker set back if and only if, with rows filed as the two writes leave them, every edge turned back over it is one of its markers and every marker it loses is such an edge |
| TaskRoundTrip.MarkersComeBack | db.js:824-950 | so, while at most the prerequisite itself is stamped with a day, an unfinished task that lists exactly its edges gets its markers back, less the edges of other finished rows |
| TaskRoundTrip.FinishedTasksLoseMarkers | db.js:852-876 | a task finished along with the prerequisite keeps exactly the markers that were neither dropped nor released |
| TaskRoundTrip.StampedDaysCanAddMarkers | db.js:878-887 | for any ids and day, a store in which the round trip adds a marker because completing stamped a day |
| TaskRoundTrip.WaitingTasks.Complete | db.js:852-950 | the finishing writes and their propagations, all or nothing |
| TaskRoundTrip.WaitingTasks.ReopenTask | db.js:852-950 | the reopening write and its propagation, all or nothing |
| CompletionTransaction.CompletionFinishes | db.js:824-912 | the rows that an accepted completion writes are exactly the finished rows that are propagated, written alike |
| CompletionTransaction.AcceptedRequestsMakeARoundTrip | db.js:618-978 | an accepted completion and an accepted reopening, with their propagations, are a round trip |
| CompletionTransaction.FinishAndPropagate | db.js:824-950 | the rows come from the queue over the steps, target first, and are finished and propagated, all or nothing |
| MeetingSweep.ReconcilingSettles | meeting-materializer.js:334-395 | after a reconciliation, or a creation, the same event asks for no further change |
| MeetingSweep.UnchangedMeansShown | meeting-materializer.js:358-385 | a meeting is left alone if and only if it shows the event: day, title, start and end or day range, the synced values and the calendar's properties |
| MeetingSweep.WritingTakesTheRest | meeting-materializer.js:380-395 | what a write stores besides: the length, the soft properties that are sent, the title last heard of; a prep state is set only for a near timed event without one |
| MeetingSweep.CreatedMeetingIsOpen | meeting-materializer.js:426-445 | a created meeting is a live, open meeting of the event's identity that shows it, under no other row |
| MeetingSweep.SweepMovesExactlyTheNest | meeting-materializer.js:195-489 | a sweep in which an open meeting has gone to another day settles it there and moves exactly the work filed under it, on whatever day, by the same days |
| MeetingSweep.NestMovesAlong | meeting-materializer.js:398-412 | the rows that move with it are those some chain of links leads to from it, and each keeps its times and is as many days later |
| MeetingSweep.DetachingFrees | meeting-materializer.js:501-524 | a row detached from a cancelled meeting is filed nowhere and otherwise unchanged |
| MeetingSweep.SweepKeepsMeetings | meeting-materializer.js:195-330 | a sweep leaves at most one row per source id, tombstones included, and no tombstone changes |
| MeetingSweep.EveryRunKeepsMeetings | meeting-materializer.js:195-330 | the same over any run of sweeps |
| MeetingSweep.SweepLeavesCompleted | meeting-materializer.js:334-448 | while no completed meeting is filed under an open one, none is changed or cancelled |
| MeetingSweep.EveryRunLeavesCompleted | meeting-materializer.js:334-530 | the same over any run of sweeps |
| MeetingSweep.NestedCompletedMoves | meeting-materializer.js:398-412 | when an open meeting moves, a completed meeting filed under it moves too |
| MeetingSweep.CompletedStayExactlyWhenFree | meeting-materializer.js:334-530 | every sweep leaves the completed meetings of a store alone if and only if none is filed under an open one |
| MeetingFixpoint.FirstPassSettles | meeting-materializer.js:297-310 | after the first pass every event of the feed is settled and its live row claimed |
| MeetingFixpoint.FirstPassShows | meeting-materializer.js:297-310 | after the first pass the live, uncompleted row of every event shows it |
| MeetingFixpoint.SweepShowsEvents | meeting-materializer.js:195-330 | after a whole sweep this holds for every eligible event of the feed |
| MeetingFixpoint.StaleMeetingsAreCancelled | meeting-materializer.js:493-530 | every stale meeting of the window is cancelled, no batch fails |
| MeetingFixpoint.AbsentMeetingIsCancelled | meeting-materializer.js:493-530 | an open meeting on a day of the window that the feed does not name is cancelled |
| MeetingFixpoint.SecondSweepChangesNothing | meeting-materializer.js:195-330 | a feed of distinct events swept twice at the same clock gives the same store |
| MeetingFixpoint.SweepsSettleExactlyWhenOpenAreFree | meeting-materializer.js:195-530 | repeating any sweep changes nothing if and only if no open meeting is filed under another open one |
| MeetingStore.NestedMoveOps | meeting-materializer.js:455-489 | the queue stops on any links and emits each row of the closure once, all by the same offset |
| MeetingStore.ReconcileMeeting | meeting-materializer.js:395-421 | the batch writes the meeting and its nested work and nothing else |
| MeetingStore.GroupFeed | meeting-materializer.js:203-237 | the loop files eligible events and all named identities by day and finds the horizon |
| MeetingStore.ItemRepeatsEvent | meeting-materializer.js:205-237 | exactly the eligible events become items, and an item repeats its event |
| MeetingStore.EventIsPlanned | meeting-materializer.js:205-237 | every eligible event is among the items of the plan |
| MeetingStore.HorizonIsLatest | meeting-materializer.js:203-237 | the horizon is the anchor or the last day of some event, and no event reaches past it |
| MeetingStore.CancelDaysAreNear | meeting-materializer.js:240-262 | meetings may be cancelled exactly on the days from the anchor to the horizon, at most 60 days on, when the request carried meetings |
| MeetingStore.PlanNamesItems | meeting-materializer.js:205-237 | every event that is materialized is among the identities named on its day |
| MeetingStore.IndexBySource | meeting-materializer.js:279-294 | the index by source id points only at meetings of that id and knows every loaded one |
| MeetingStore.MaterializeMeeting | meeting-materializer.js:334-445 | creates, skips a tombstone, keeps a completed meeting or reconciles |
| MeetingStore.CancelMeeting | meeting-materializer.js:501-524 | detaches the children and deletes the meeting, or changes nothing when the batch would write a deleted row |
| MeetingStore.CalendarRows.MaterializeMeetings | meeting-materializer.js:195-330 | both passes over the days give exactly the swept store |
| TankOrder.GateIsPrefixSum | budget-store.js:390-402 | the gate of the k-th row of the tank is the sum of the first k + 1 values |
| TankOrder.OrderIsUnique | budget-store.js:393-397 | the order by position and id is the only one |
| TankOrder.FundingIsExact | budget-store.js:464-502 | the funded amounts add up to the smaller of waterline and plan |
| TankEffects.WaterFillsBlock | budget-store.js:478-481 | a block is full when the water reaches its gate, empty while it stands at what is planned before, and in between holds the difference |
| TankRuns.EveryRunIsSound | budget-store.js:390-834 | every run of add, clone, update, split, remove, reorder, rollover, claim and spin keeps gates as prefix sums, rows outside the tank at gate 0, values positive and the reserve non-negative |
| TankRuns.SplitPlacesCopyBehindSource | budget-store.js:613-682 | after a split the tank lists the old ids with the copy right behind its source |
| TankRuns.SplitConserves | budget-store.js:613-682 | both halves are positive and add up, the plan is unchanged, the copy has the source's old gate and no other gate moves |
| TankRuns.SplitsExactlyTheUnclaimed | budget-store.js:613-635 | a split changes the tank if and only if the row is in it, has two cents or more, is unclaimed and has a number of uses left |
| TankRuns.RecurringIsNeverSplit | budget-store.js:630-635 | in every reachable tank a recurring block is refused |
| TankRuns.RolloverKeepsExactly | budget-store.js:1031-1056 | a block of the tank is in it after a rollover if and only if it recurs, or purchases carry over and it is unclaimed |
| TankRuns.RolloverOrdersTank | budget-store.js:1031-1056 | afterwards every one-off block stands before every recurring one, and two blocks of the same kind as they stood before |
| TankRuns.RolloverMovesOnly | budget-store.js:1031-1056 | a rollover changes nothing of any row but its place and its gate |
| TankRuns.AppendedGoesLast | budget-store.js:532-572 | a new block goes to the end and moves no other |
| TankRuns.SpinStaysUnderWater | reward-vault-store.js:284-332 | a spin keeps the planned total within the waterline and pays exactly its price |
| TankEffects.AddsExactly | budget-store.js:514-572 | a block is added exactly when its amount is positive: one new row a thousand behind the last, worth the amount up to a million dollars, unclaimed, with one use unless it recurs; every other row stays as it is |
| TankEffects.ClonesExactly | reward-vault-store.js:284-332 | a cloned reward is taken at its price, however high |
| TankEffects.SpinPaysExactly | reward-vault-store.js:284-332 | a spin buys its reward if and only if neither the unplanned water nor the reserve falls short of its price |
| TankEffects.UpdatesExactly | budget-store.js:574-611 | an edit is taken exactly when its amount is positive and the block stands in the tank, and sets the fields as stated; only gates change besides |
| TankEffects.RemovesExactly | budget-store.js:686-718 | exactly the block of that id leaves the tank; a kept reward stays as it is, any other is deactivated and deleted |
| TankEffects.ClaimsExactly | budget-store.js:772-834 | a claim is taken if and only if the block is in the tank, active, unclaimed this period, under water and within the reserve; it debits the price, not the gate, and takes one use |
| TankEffects.SplitCopiesFields | budget-store.js:613-682 | a split leaves every field of the source but amount, place and gate, and makes an unclaimed copy with its category, recurrence and activity |
| TankEffects.RebalancesExactly | budget-store.js:739-746 | a reordering renumbers if and only if two of the given positions, at any distance in the list, lie less than a thousandth apart |
| TankEffects.ReorderPlacesExactly | budget-store.js:720-768 | otherwise every listed block stands where its last item says and all else stays, gates aside |
| TankEffects.ReorderRanksExactly | budget-store.js:738-760 | when it renumbers, blocks rank by where they were to stand, equals by id |
| TankEffects.ReorderNumbersTank | budget-store.js:747-760 | ... and stand at 1000, 2000, ... in that rank |
| TankEffects.SlotIsThousands | budget-store.js:755-759 | the slots are 1000, 2000, ... |
| OverflowSpins.SpinBuysAChoice | reward-vault-store.js:273-332 | a spin buys a drawable reward of the vault with a positive share that neither the unplanned water nor the reserve falls short of, appends its claimed block and archives exactly a one-off reward |
| OverflowSpins.SpinDrawsByShares | reward-vault-store.js:273-318 | the random number, scaled to all shares, falls into the shares of the bought reward when those within reach are laid out in the order of the vault |
| OverflowSpins.ScaledIsProduct | reward-vault-store.js:273-282 | the scaled number is the random number times all shares |
| OverflowSpins.SpinsExactlyWhenAffordable | reward-vault-store.js:284-318 | whatever the random number, a spin buys something if and only if its key is new and such a reward exists |
| OverflowSpins.EachKeyIsChargedOnce | reward-vault-store.js:289-332 | over any run of spins and tank operations a source key is charged once, with the amount of its stored spin |
| TankRuns.ClaimsStayUnderWater | budget-store.js:772-834 | claims made since the last change of the tank total at most the waterline |
| BudgetStore.TankStore.RecomputeTankThresholds | budget-store.js:390-402 | the statement gives every tank row its window sum |
| BudgetStore.TankStore.AddTankBlock | budget-store.js:514-572 | adds every block with a positive amount, clamped to the limit, and keeps the tank sound |
| BudgetStore.TankStore.UpdateTankBlock | budget-store.js:574-611 | edits a block of the tank, the amount clamped to the limit, and keeps the tank sound |
| BudgetStore.TankStore.SplitTankBlock | budget-store.js:613-682 | the statements of a split give exactly the split tank, and a row more if and only if it split |
| BudgetStore.TankStore.RemoveTankBlock | budget-store.js:686-718 | takes a block out of the tank, keeping or deleting its row |
| BudgetStore.TankStore.ReorderTank | budget-store.js:720-768 | moves the listed rows and renumbers when two positions nearly collide |
| BudgetStore.TankStore.ClaimTankBlock | budget-store.js:772-834 | claims exactly a reached, affordable block not claimed this period |
| BudgetStore.TankStore.RolloverTank | budget-store.js:960-1056 | the partition, clearing and renumbering loops give the rolled-over tank |
| BudgetStore.TankStore.OverflowSpin | reward-vault-store.js:284-332 | answers a repeated key from the stored spin; else draws by shares among the affordable rewards, buys the drawn one and stores the spin |
| BudgetStore.BuildCategories | budget-store.js:464-502 | each group holds exactly the blocks of its category, 0 <= funded <= budget, and the groups add up |
| BudgetStore.LedgerOf | budget-store.js:464-502 | however items are scattered, the groups are funded with the smaller of waterline and plan |
| BudgetStore.WeightedChoice | reward-vault-store.js:273-282 | draws the share the scaled random number falls into, and nothing exactly when all shares are zero |
| MoneyChanger.EveryInterleavingIsSound | budget-store.js:843-927 | every interleaving keeps the invariant of books, keys and clients |
| MoneyChanger.EveryRunFromStartKeepsTheBooks | budget-store.js:843-927 | from empty tables, wherever a run stops, points and bank are the first amounts plus and minus the rows, neither is negative, each key converts at most once and for one client, and a duplicate is shown the stored conversion |
| MoneyChanger.RetryNeverConvertsAgain | budget-store.js:848-912 | a key once converted never converts again; a retry sees the stored conversion or rolls back |
| MoneyChanger.ConversionAlone | budget-store.js:843-927 | an uninterrupted conversion commits and moves exactly the quoted amounts |
| MoneyChanger.RefusedAlone | budget-store.js:843-868 | sent alone, a key converted before is answered with the stored conversion and an amount above the balance is refused; no table changes |
| MoneyChanger.EveryConversionIsQuoted | budget-store.js:866-912 | however a run interleaves, every conversion credits its points at a rate that the run quoted |
| MoneyChanger.ClaimTakesExactly | budget-store.js:808-822 | a claim takes its price out of the bank exactly when the bank holds it |
| MoneyChanger.RolloverSweepsExactly | budget-store.js:983-1029 | a rollover sweeps the leftover, at most the bank, once a period; investing debits it, carrying leaves the balances alone |
| MoneyChanger.CarryIsSeededUnlessKeyIsTaken | budget-store.js:1009-1027 | a carry-over seeds the new period if and only if no conversion took its key |
| MoneyChanger.ClientKeyCanSwallowCarryOver | budget-store.js:1021-1024 | a conversion under the carry-over's key leaves the period stamped but unseeded |
| Commitments.EveryRunIsFaithful | commitment-store.js:177-275 | after any run status, evidence, date, check-in and members equal the fold of the log, revisions are 1..n and every recorded before value is true |
| Commitments.ActKeepsFaithful | commitment-store.js:205-275 | one action keeps the tables equal to the fold |
| Commitments.ReplayChangesNothing | commitment-store.js:182-217 | the action id of an accepted create or action changes nothing when it comes again, after any calls; it is viewed only with the same commitment and input, and a repeated create always |
| Commitments.OneActionPerRevision | commitment-store.js:205-217 | of two actions based on the same revision at most one is accepted |
| Commitments.ActTakesExactly | commitment-store.js:205-275 | an action is taken if and only if its sender sees the commitment, has not sent its id, knows the revision, may ask for it by role and gives usable fields; it then changes row and members as its kind says and appends one event that tells so |
| Commitments.ActRepliesExactly | commitment-store.js:205-217 | unseen commitments are missing, a repeated id is viewed only for the same input, stale revisions conflict, missing permissions are forbidden |
| Commitments.CreateTakesExactly | commitment-store.js:188-204 | a create is taken if and only if its fields are usable, its action id is new, the workspace is owned and the id is free; what it stores |
| Commitments.CommitmentStore.CreateCommitment | commitment-store.js:188-204 | the statements of a create give the specified tables and reply |
| Commitments.CommitmentStore.ActOn | commitment-store.js:205-275 | the statements of an action give the specified tables and reply |
| ConversationOAuth.EveryGrantHasOneUnspentCredential | conversation-oauth.js:93-193 | in every reachable state each grant has exactly one unspent credential among its code and refresh tokens |
| ConversationOAuth.RevokedForever | conversation-oauth.js:142-224 | owner, client and scopes of a grant never change, and once revoked nothing is minted for it again |
| ConversationOAuth.RevokedGrantNeverVerifies | conversation-oauth.js:195-207 | no token of a revoked grant is ever verified, after any calls |
| ConversationOAuth.ReusedRefreshTokenRevokesTheGrant | conversation-oauth.js:167-192 | presenting a spent refresh token revokes the grant and answers with a refusal |
| ConversationOAuth.MintingIsEarned | conversation-oauth.js:142-194 | a pair is minted only for the code or token presented, which is unexpired, the client's own and the one unspent credential of an unrevoked grant; afterwards the new refresh token is |
| ConversationOAuth.SpentCodeOnlyRefuses | conversation-oauth.js:145-162 | presenting a spent code is refused and changes nothing |
| ConversationOAuth.ConsentIsGivenExactly | conversation-oauth.js:40-121 | a consent is given if and only if a known client asks its owner properly; the grant holds exactly the asked scopes, the code lives five minutes |
| ConversationOAuth.CodeBuysExactly | conversation-oauth.js:142-164 | after any calls a code buys a pair if and only if it is unspent, under five minutes old and unrevoked, and its client presents it with address, resource and verifier, for an account that is still an owner |
| ConversationOAuth.AccessVerifiesExactly | conversation-oauth.js:122-207 | after any calls a minted access token is verified if and only if it is under an hour old, unrevoked, the account still an owner and the scope granted; a refresh token never is |
| ConversationOAuth.RefreshBuysExactly | conversation-oauth.js:164-193 | after any calls a minted refresh token buys the next pair if and only if it is unspent, under thirty days old, unrevoked and its client's own for no other scopes; an access token never does |
| ConversationOAuth.RevokesExactly | conversation-oauth.js:167-224 | a grant becomes revoked if and only if its owner asks or its client presents a spent refresh token of it |
| ConversationOAuth.SpendsExactly | conversation-oauth.js:142-193 | a code or refresh token becomes spent if and only if a pair is minted for it |
| ConversationOAuth.OAuthStore.ConsentTo | conversation-oauth.js:93-121 | the statements of a consent give the specified tables and reply |
| ConversationOAuth.OAuthStore.RedeemToken | conversation-oauth.js:142-194 | the statements of a token request give the specified tables and reply |
| ConversationOAuth.OAuthStore.VerifyToken | conversation-oauth.js:195-207 | answers as specified and changes nothing |
| ConversationOAuth.OAuthStore.RevokeGrant | conversation-oauth.js:217-224 | revokes the caller's own grant and nothing else |
| ImportManifest.OrderedGraphIsSound | project-store.js:141-156 | a topological order of all tasks rules out dangling references and cycles |
| ImportManifest.Validator.Visit | project-store.js:141-153 | one visit ends with the task in a longer topological order, or with an error that has its reason |
| ImportManifest.Validator.VisitAll | project-store.js:141-156 | succeeds exactly on closed acyclic references; the finished set is a topological order |
| ImportManifest.Validator.ValidateImportManifest | project-store.js:123-157 | accepts a manifest if and only if its sizes and fields hold, every dependency and parent that an item names is the id of some item, and no sequence of items in which each names the next returns to its first; each refusal has its reason |
| RepeatTemplate.ClampedTreeIsBounded | responsibility-store.js:241-269 | a clamped template has at most 200 nodes and depth 6 |
| RepeatTemplate.ClampingIsIdempotent | responsibility-store.js:241-269 | clamping a clamped template changes nothing |
| TemplateVisits.ClampKeepsTheFirst | responsibility-store.js:241-269 | a template is refused if and only if its root is no object or untitled; else clamping keeps, in place and with fields clamped as stated, exactly the first 200 objects down to the sixth level |
| RepeatTemplate.NormalizeTemplateTree | responsibility-store.js:241-269 | the recursion over the shared counter gives the clamped tree |
| RepeatTemplate.ValidateScheduledTaskBounds | responsibility-store.js:180-197 | accepts exactly durations of 1 to 1440 minutes that end by midnight at every time of the rule |
| RepeatTemplate.ScheduledRowsForOccurrence | responsibility-store.js:759-861 | the single task with its default subtasks, or the walk over a template with a moving cursor, or the midnight error |
| TemplateVisits.OccurrenceShowsTheTemplate | responsibility-store.js:800-861 | an occurrence is laid out if and only if its timed steps end by midnight; the k-th row shows the k-th node read from the top, under the row of its parent, and starts when the timed steps before it end |
| RepeatTemplate.CheckedOccurrenceFitsItsDay | responsibility-store.js:759-861 | a checked repeat never meets the midnight error at the rule's own times, lasts the checked duration, ends by midnight, and the timed rows of a template follow each other without overlap |
| RepeatTemplate.CheckRefusesExactlyTheErrors | responsibility-store.js:180-197 | the save-time check refuses a template if and only if it takes no time or over a day, or some time of the rule meets the midnight error |
| RepeatTemplate.PlainTaskWrapsExactlyPastMidnight | responsibility-store.js:769-784 | without a template the end lies before the start if and only if the task does not end before midnight |
| FreeSlots.SortIsStable | responsibility-store.js:229 | the sort by start loses and doubles no blocker and keeps the order of equal starts |
| FreeSlots.StableSortIsUnique | responsibility-store.js:229 | which makes it the only such order |
| FreeSlots.WalkBlockers | responsibility-store.js:228-235 | the cursor finds the earliest start whose interval meets no blocker, and answers none only when every free interval ends more than an hour after the day |
| FreeSlots.DayContext.FirstFreeSlot | responsibility-store.js:228-235 | sorts the blockers of the day in place, stably, and gives that answer |
| FreeSlots.DayContext.Schedule | responsibility-store.js:679-725 | places one task at the earliest free slot, or at the window's start exactly when there is none, and blocks its interval |
| FreeSlots.DayContext.ScheduleAll | responsibility-store.js:685-693 | every wanted task is placed, in order; while no call falls back, they are pairwise disjoint and meet no loaded blocker |
| Reimbursement.SplitShares | reimbursement-store.js:58-128 | shares are non-negative and add up to the total; equal ones differ by at most a cent, percentages are under a cent below exact except the last, which takes the rest |
| Reimbursement.SplitEqually | reimbursement-store.js:89-97 | the remainder loop hands out a cent each to the first people |
| Reimbursement.SplitByPercentage | reimbursement-store.js:110-128 | rounded-down shares with the rest to the last person |
| Reimbursement.BasisPointsAreNearest | reimbursement-store.js:110-117 | a percentage counts as its nearest hundredth, halves upwards |
| Reimbursement.NoRunOverpays | reimbursement-store.js:417-450 | over any run of payments no share is overpaid and the total due stays |
| Reimbursement.PaymentIsRecordedExactly | reimbursement-store.js:417-450 | a payment is recorded if and only if the share is known and due, the amount whole, positive and at most what is open, and the method supported; then only its share and the payments change |
| Reimbursement.DueIsPaidPlusOutstanding | reimbursement-store.js:130-180 | due is paid plus outstanding, and nothing is outstanding exactly when all shares are covered |
| Reimbursement.Expense.InsertPayment | reimbursement-store.js:417-450 | records a payment exactly when it is valid and fits the share |
| Reimbursement.Expense.TotalsFor | reimbursement-store.js:130-180 | the loops compute the totals and the settlement status |
| CommentStripper.RelexingFindsTheSamePieces | js-comment-strip-fixture.js:21-76 | lexing the output finds the same literals and characters, with a space for each comment |
| CommentStripper.StrippingIsIdempotent | js-comment-strip-fixture.js:21-76 | stripping twice is stripping once |
| CommentStripper.StrippedTextHasNoComment | js-comment-strip-fixture.js:21-76 | the output holds no comment |
| CommentStripper.StrippingNeverLengthens | js-comment-strip-fixture.js:21-76 | the output is never longer than the input, and as long only without comments |
| CommentStripper.PiecesSpellTheSource | js-comment-strip-fixture.js:21-76 | the pieces the lexer finds spell the source |
| CommentStripper.LexIsCut | js-comment-strip-fixture.js:21-76 | in characters alone: each piece starts with its mark and ends at its first end, a quote or slash after an even number of backslashes and outside a class, a newline or the comment's end, and a slash divides exactly behind a value |
| CommentStripper.CutIsUnique | js-comment-strip-fixture.js:21-76 | a text can be cut so in one way only |
| CommentStripper.StripJsComments | js-comment-strip-fixture.js:21-76 | the character loop prints exactly such a cut, literals and code as they stand and a space for each comment |

## Left out

- TaskGraph: activity plans, sort orders, task statuses, the idempotency index and delete receipts; a
  reference is text, and the rows of the other block types enter as they stand.
- Completion: parent changes and the checks on guided and waiting tasks enter as given outcomes; a
  blank stored revision counts as a revision.
- Completion.TaskRows.SetTaskCompletion: a reference that no task row has is answered `Legacy`: the list
  of old tasks in a day root is not modelled, nor are companion updates.
- Completion.ReplayedUpdateIsSilentExactlyWhenStored: assumes that the base revision was drawn before
  the update (revisions are random) and that the row stays a task.
- TaskDependencies: the titles and broadcast lists that propagation returns; other properties of the
  rows it writes.
- TaskRoundTrip: companion updates that release an edge while a task is completed; the markers of rows
  that are themselves waiting edges.
- MeetingSweep: parsing of instants and time zones, point scoring, sort orders and the store's
  failures; a row carries the facts the sweep compares and writes, other properties do not change.
- MeetingFixpoint.SweepsSettleExactlyWhenOpenAreFree: assumes that no two open meetings are filed under
  each other.
- TankOrder: positions are reals, not floating-point numbers.
- BudgetStore.BuildCategories: the groups are stated as the loop leaves them; the final sorts, the
  colours, counts and status labels are not modelled.
- BudgetStore.TankStore.SplitTankBlock: the numbering of split titles is not modelled.
- BudgetStore.TankStore.OverflowSpin: the sweep of pending bank points before a spin; the vault holds
  the fields that the query and the draw read.
- BudgetStore.WeightedChoice: the last row as fallback is proved unreachable for exact numbers;
  rounding of floating-point shares is not modelled.
- MoneyChanger: the price of a point (`quoteBankUnit`) is any number of cents from 1 up; the waterline
  (`resolveTankWaterline`) and the leftover of a period (`sweepPreview`) enter as numbers: they are
  short sums over settings.
- Commitments: cleaning of texts and dates enters as an unusable field; usernames are unique.
- ConversationOAuth: secrets are fresh numbers, digests are injective names for them.
- ImportManifest: cleaning of ids and titles enters as two flags per item.
- RepeatTemplate: text cleaning; rounding of durations happens before the model.
- Reimbursement: token pages, e-mail claims and notes; amounts are exact numbers.
- CommentStripper: the input is a string; other values that the source turns into text are not
  modelled.
- The capability tables and access rules (`capabilities.js`, `access-store.js`) map a role to
  fixed flags; settings, slots and punishments read one row, change it and write it back. None of them
  carries state from one operation to another that a property could turn on.
- Conversations, guided tasks, work rotation and readiness recurrence: their deciding rules live in
  library files that are not part of this model.
- SQL, pooling, routes, migrations, calendars, mail, storage and the front end: I/O and foreign
  calls.
