# BlazeList client and protocol, modelled in Dafny

This project models the parts of BlazeList that compute rather than communicate, and proves what they are for:

- **Placement** (`Priority`, `PlacementProofs`, `PlacementRuns`). Cards are ordered by distinct 64-bit priorities. A new
  card gets a jittered midpoint between its neighbours; when two neighbours have no gap, the maximal packed run around
  them is spread out again. The random draw is a parameter, and `JitterIsArbitrary` shows that every jitter of the
  source is some draw, so each result holds for every outcome. The comment on edge capping speaks of about 2^48 inserts;
  `EdgeInsertsStaySimple` guarantees 2^47 under every draw, each moving its end by 28672 to 36864.
- **Tag implications** (`Walks`, `TagGraphs`, `CycleDetection`). The worklist closure, what a card is missing, and the
  three-colour depth-first search with its explicit stack and path, on arbitrary graphs.
- **Card links** (`LinkGraph`, `Expansion`, `LinkCounting`, `CacheModel`, `LinkCaching`, `LinkSessions`).
  Breadth-first expansion over forward and back links, link counts for any iteration order of the hash maps, and the
  background cache pass as a state machine: invalidate, schedule, fill one component at a time, cancel by generation,
  in any order a scheduler picks.
- **Canonical bytes and hash chains** (`Bytes`, `Canonical`, `Chains`). The hash is any function from bytes to digests.
  Results read "equal, or here are two different byte strings with the same hash".
- **Sync** (`IndexMaps`, `Sync`, `SyncLaws`, `Trimming`) and **the way from a placement over the server to another
  client's list** (`ShiftedVersions`, `Pushing`, `PushedShifts`, `PushedVersions`, `Workflow`). The server checks and
  stores the items of a batch one after the other, so whether it takes a rebalance depends on their order.
- **Task lists** (`Text`, `TaskItems`, `TaskLists`, `TaskListLaws`).
- **Seeding** (`SeedPriorities`, `SeedTags`, `SeedCards`, `SeedBoards`). Deterministic gap search with a pigeonhole
  argument, implications that are acyclic by construction, and card histories whose tag sets stay closed.

`Ids` and `Integers` hold what all of them share. Loops and in-place updates of the source are methods and classes
proved against specification functions; what the source promises is then proved about those functions.

## Where the code and its promises part

- A Top insert into cards at `i64::MAX` and `i64::MAX - 2` moves the first card onto the second
  (`PlacementProofs.TopInsertCanCollide`). `PlacementProofs.PlaceCardExact` gives the exact condition under which
  placement keeps the order; inside the open range one free integer is enough.
- The editor pushes the shifts of a rebalance from the top card down, and the server refuses an item whose priority
  another card still holds. So a placement can be refused with no other client involved: `PushedShifts.PackedRunIsRefused`
  moves card 3 onto card 5, whatever is drawn. The editor has then moved the cards locally and sends or queues the new
  card only. `Workflow.PushTaken` says exactly when the push is stored: the gap is open, or no card of the packed run
  moves onto the old priority of one below it, that is (`PushedShifts.ClearOfRun`) each stays, rises, or drops below the
  whole run.
- The comment on the cache fingerprint says that it catches every content change. Deleting one card and adding another
  can keep it (`LinkSessions.FingerprintCanMiss`); `LinkSessions.GuardExact` says exactly when the cache is still right.
- An item of a push may hold versions of several cards: only the first is compared with the stored card. A version of
  another card behind it replaces that card without following its current version (`Pushing.MixedItemIsStored`); for
  items of one card each, no version is ever lost (`Pushing.RunDescends`).
- Links are symmetric exactly when every reference to a card is found in lower case (`LinkGraph.SymmetryExact`). With an
  upper-case reference the expansion is one-way and the recursive link count can saturate
  (`LinkGraph.UpperCaseIsOneWay`, `LinkCounting.UpperCaseSaturates`); `LinkCounting.SaturatesExactly` says when.
- The transitive link count is documented as additional cards. It also counts ids that name no card, unless every card
  of the component references cards only (`LinkCounting.CountsCardsExactly`).
- Toggling a task item also drops the carriage return of every CRLF line ending. Exactly on text without CRLF it changes
  nothing but the box (`TaskListLaws.ToggleChangesOneBox`, `TaskListLaws.ToggleDropsCrLf`).
- `resolve_priority` finds a free value exactly when one below `i64::MAX` exists, and its third branch can never run
  (`SeedPriorities.ResolvePriority`). A used `i64::MAX` overflows.
- Seeded implications are acyclic for every stream of draws exactly when the tag ids are distinct
  (`SeedTags.SeedingIsAcyclicExactly`).

## Model

| member | source | states |
|---|---|---|
| `Priority.ComputePriority` | clients/lib/src/priority.rs:18-36 | With a gap of two or more the result lies strictly between the bounds, and with more within the jitter range of the midpoint, for every draw; equal bounds give that bound back |
| `Priority.JitterIsArbitrary` | clients/lib/src/priority.rs:18-36 | Every jitter from minus to plus the range is the outcome of some draw, so quantifying over draws covers the random generator |
| `Priority.CapEdgeBounds` | clients/lib/src/priority.rs:96-132 | Capping an edge gap keeps the bounds inside the original ones, keeps a gap that is open open, and never leaves more than the cap when it acts |
| `Priority.ScanLeft` | clients/lib/src/priority.rs:206-214 | The left scan stops at the start of the packed run: every gap passed is at most one and the next one is wider |
| `Priority.ScanRight` | clients/lib/src/priority.rs:216-227 | The right scan stops at the end of the packed run |
| `Priority.ScanWindow` | clients/lib/src/priority.rs:201-240 | The two scans find the packed window, with the bounds just outside it |
| `Priority.Redistribute` | clients/lib/src/priority.rs:241-276 | The slot loop gives the new card the slot at its index and lists, in order, exactly the cards whose priority changes with their slots |
| `Priority.Rebalance` | clients/lib/src/priority.rs:201-283 | The whole rebalance: the new card's slot and the shifts, `Simple` when nothing shifts; an empty list falls back to the full range |
| `PlacementProofs.SlotInside` | clients/lib/src/priority.rs:229-269 | With room in the window no clamp ever acts: every slot is its ideal value, a step or more from both bounds |
| `PlacementProofs.RebalanceIsOptimal` | clients/lib/src/priority.rs:229-269 | Among all ways to place that many cards strictly between the same bounds none has a larger smallest gap than the step used, and the slots attain it |
| `PlacementProofs.RebalanceExact` | clients/lib/src/priority.rs:201-283 | A rebalance keeps the list strictly descending if and only if the window has room for its cards and the new one |
| `PlacementProofs.PlaceCardExact` | clients/lib/src/priority.rs:137-193 | For every strictly descending list over the whole range: the placed list is strictly descending if and only if the neighbour gap is open or the packed window has room |
| `PlacementProofs.TopInsertCanCollide` | clients/lib/src/priority.rs:137-283 | The failing family is real: cards at the maximum and two below it collide on a Top insert |
| `PlacementProofs.WindowHasRoom` | clients/lib/src/priority.rs:206-239 | On an ordered list in the open range with one free integer, the window of an exhausted gap is the maximal packed run and has room |
| `PlacementProofs.PlaceCardKeepsOrder` | clients/lib/src/priority.rs:137-193 | The placement theorem: for every ordered board with a free integer, position and draw, applying the result gives an ordered board in the open range with the new card first for `Top`, last for `Bottom` and at the index, cut to the end, for `At`, and the others in their old order; the outcome is `Rebalanced` exactly when the neighbour gap is at most one |
| `PlacementProofs.RebalanceIsLocal` | clients/lib/src/priority.rs:201-283 | A rebalance changes priorities only inside the maximal packed run, which ends up one even step apart, counted down from its upper bound |
| `PlacementProofs.OthersKeepOrder` | clients/lib/src/priority.rs:137-141 | Whatever the shifts, the other cards keep their places around the new one |
| `PlacementRuns.ActKeepsBoard` | clients/lib/src/priority.rs:137-297 | Each of placing, moving and resolving a collision keeps the board ordered, distinct and inside the open range |
| `PlacementRuns.RunKeepsBoard` | clients/lib/src/priority.rs:137-297 | So does every run of them: no board on the way ever has two equal priorities or cards out of order |
| `PlacementRuns.MoveCardKeepsOthers` | clients/lib/src/priority.rs:147-152 | Moving a card puts it first, last or at the index among the others, as asked, and keeps the others in order; it rebalances exactly when the gap there is at most one |
| `PlacementRuns.ResolveCollisionSplits` | clients/lib/src/priority.rs:291-297 | After resolving a collision every card above the desired priority is above the new card and every other card below it |
| `PlacementRuns.EdgeInsertMoves` | clients/lib/src/priority.rs:96-132 | Away from the ends of the range, each insert at the top is `Simple` and lands between 28672 and 36864 above the old top, and each at the bottom as far below the old bottom |
| `PlacementRuns.EdgeInsertAnyMove` | clients/lib/src/priority.rs:18-132 | Every move of 28672 to 36864 is the outcome of some draw, above the old top for `Top` and below the old bottom for `Bottom` |
| `PlacementRuns.EdgeInsertsStaySimple` | clients/lib/src/priority.rs:96-132 | From an empty list, any mix of up to 2^47 Top and Bottom inserts, under every draw, yields `Simple` every time and moves its own end by that much |
| `ShiftedVersions.BuiltVersions` | clients/lib/src/priority.rs:303-320 | The versions built are those of the listed cards that have a shift, each the next version with the shifted priority; unknown ids are dropped |
| `ShiftedVersions.ShiftKeepsRest` | clients/lib/src/priority.rs:303-320 | A shifted version is the next one of its card with the new priority and nothing else changed: text, tags, flag, due date and creation time stay |
| `ShiftedVersions.PlacementShiftsOnce` | clients/lib/src/priority.rs:244-276 | A placement's shifts name cards of the list, each at most once, and each gives its card a priority it did not have |
| `Pushing.SqliteStorage.PushBatch` | server/src/storage/sqlite/mod.rs:390-473 | The loop stores all items of a batch, each checked against the store its predecessors left, or none; a refusal names the first item that fails and its error |
| `Pushing.PushVersionsExact` | server/src/storage/sqlite/write.rs:15-123 | Exactly what an item comes to: stored if and only if there are versions, all verify, the card is not deleted, the first follows the current version or starts a new card, each names the one before it, and the priority is free; otherwise the error of the first of these that fails |
| `Pushing.BatchGoesItemByItem` | server/src/storage/sqlite/mod.rs:390-435 | Each item is stored into what the ones before it left; a refusal names the first item that fails, and how |
| `Pushing.RunDescends` | server/src/storage/sqlite/write.rs:40-63 | Over any run of batches, accepted or refused, of items that are versions of one card each: every current version descends by hash links, through verified versions of that card, from the one it replaced, so no version is lost, and priorities stay apart |
| `Pushing.MixedItemIsStored` | server/src/storage/sqlite/write.rs:20-63 | An item that goes from a new card to a version of another is stored, and replaces that card by a version that does not descend from it |
| `Pushing.PushIsSound` | server/src/storage/sqlite/write.rs:15-123 | Over any batches no two stored cards ever share a priority, cards stay filed under their ids, and their hashes verify |
| `PushedVersions.SingleVersion` | server/src/storage/sqlite/write.rs:15-123 | A version that verifies and follows the current one is stored exactly if no other card has its priority, and is otherwise refused for that |
| `PushedVersions.VersionsTaken` | server/src/storage/sqlite/mod.rs:405-435 | A batch of such versions, one card each, is stored whole exactly if every priority is free at its turn, and then the store holds the versions in place of the old ones |
| `PushedShifts.FreeAtTurn` | server/src/storage/sqlite/write.rs:88-103 | Half-way through a rebalance a card's new priority is free exactly if no card below it in the run still has it; the cards already moved and those outside the run never stand in the way |
| `PushedShifts.ShiftsTaken` | clients/wasm/src/components/card_editor.rs:269-274 | The shifts in the order the editor pushes them are all taken exactly if each is clear at its turn, and then the whole window has moved |
| `PushedShifts.PlacementTaken` | clients/wasm/src/components/card_editor.rs:269-274 | For every valid board with a free integer, position and draw: shifts and new card are taken if and only if the gap is open or no card of the packed window moves onto the old priority of one below it; the new card adds no condition |
| `PushedShifts.ClearOfRun` | clients/lib/src/priority.rs:241-276 | A card moves clear exactly if it stays, rises, or drops below its whole run |
| `PushedShifts.PackedRunIsRefused` | server/src/storage/sqlite/write.rs:88-103 | A six-card board whose placement is refused at the second item under every draw |
| `Workflow.PushTaken` | clients/wasm/src/components/card_editor.rs:238-280 | For any position and draw the server stores the push if and only if that guard holds, and then its store is the placed list by id; otherwise an item is refused for its priority and nothing is stored |
| `Workflow.PushReproducesPlacement` | clients/wasm/src/components/card_editor.rs:209-280 | Once the server has taken the push, a client that merges it ends with exactly the list the placement meant, whatever order its sort gives equal priorities, and that is what the server holds |
| `Workflow.ReceivePlacement` | clients/wasm/src/components/card_editor.rs:209-280 | Server and receiving client run one after the other: under that guard both move to the placed list, a valid board with the new card at its index; otherwise both keep what they have |
| `Walks.ClosureIsLeast` | protocol/src/tag/graph.rs:121-142 | The closure holds the roots, is closed under implies, and is contained in every such set |
| `TagGraphs.TagGraph.ClosureOf` | protocol/src/tag/graph.rs:128-142 | The worklist terminates on cyclic and dangling graphs and returns everything reachable from the roots |
| `TagGraphs.TagGraph.Upsert` | protocol/src/tag/graph.rs:80-82 | Replaces the implies list of one tag and nothing else |
| `TagGraphs.TagGraph.Remove` | protocol/src/tag/graph.rs:85-87 | Drops one tag's entry and nothing else; edges to it may dangle |
| `TagGraphs.TagGraph.MissingForCard` | protocol/src/tag/graph.rs:147-151 | Returns the missing tags in id order |
| `TagGraphs.MissingIsSmallest` | protocol/src/tag/graph.rs:147-151 | What is missing is sorted, new to the card, enough to close it, contained in every addition that closes it, and empty exactly when the card is closed |
| `TagGraphs.TagGraph.AffectedCards` | protocol/src/tag/graph.rs:230-239 | The loop reports the affected cards in list order |
| `TagGraphs.AffectedIsExact` | protocol/src/tag/graph.rs:230-239 | A card is reported if and only if it misses something, with exactly what it misses |
| `TagGraphs.ComplianceIsStable` | protocol/src/tag/graph.rs:230-239 | After adding what is reported a second call reports nothing |
| `CycleDetection.DetectCycle` | protocol/src/tag/graph.rs:156-218 | Terminates on every graph; `None` if and only if the implies relation is acyclic; otherwise a closed walk of real edges, at least two ids long, that repeats no id but its ends |
| `CycleDetection.Search` | protocol/src/tag/graph.rs:186-215 | One search keeps the three colours, the path and the finishing order, and ends with an empty stack or a simple cycle |
| `CycleDetection.DescendKeeps` | protocol/src/tag/graph.rs:196-202 | Descending to a white parent keeps the search invariant and sees a new node |
| `CycleDetection.SkipKeeps` | protocol/src/tag/graph.rs:211-213 | Passing a black parent keeps the invariant and uses up work |
| `CycleDetection.LeaveKeeps` | protocol/src/tag/graph.rs:187-192 | Leaving a node whose parents are done keeps the finishing order topological |
| `CycleDetection.GrayClosesCycle` | protocol/src/tag/graph.rs:203-210 | A gray parent is on the path, so the path from it closes a simple cycle; the fallback index is never used |
| `CycleDetection.FinishedIsAcyclic` | protocol/src/tag/graph.rs:156-218 | A finishing order over all tags with implications rules out every cycle |
| `LinkGraph.ExtractCardLinks` | clients/lib/src/display.rs:227-243 | The loop computes the links: the matched ids without repeats and without the card itself |
| `LinkGraph.LinksInOrder` | clients/lib/src/display.rs:227-243 | The links stand in the order in which the text first mentions them |
| `LinkGraph.BackLinksAre` | clients/lib/src/display.rs:273-286 | An id is a back link exactly when its card passes the lower-case filter and links to the node |
| `LinkGraph.BackLinksInOrder` | clients/lib/src/display.rs:273-286 | Back links come in list order, from exactly the cards that name the node and pass the filter |
| `LinkGraph.SymmetryExact` | clients/lib/src/display.rs:273-286 | Links work in both directions if and only if every reference to a card passes the lower-case filter |
| `LinkGraph.UpperCaseIsOneWay` | clients/lib/src/display.rs:273-286 | A reference with a hexadecimal letter in upper case is followed forward and not back |
| `LinkGraph.ComponentIsShared` | clients/wasm/src/components/card_list.rs:215-244 | With symmetric links every member of a component has the same component, which the cache fill relies on |
| `LinkGraph.ComponentIsLeast` | clients/lib/src/display.rs:294-310 | A component is the least set around a card closed under its members' links |
| `Expansion.EnqueueNeighbours` | clients/lib/src/display.rs:316-335 | Enqueues the unvisited links and then the unvisited back links, each once, in order |
| `Expansion.UnvisitedInOrder` | clients/lib/src/display.rs:316-335 | What is enqueued stands in the order of the neighbours, each at its first mention |
| `Expansion.ExpandLinkedCards` | clients/lib/src/display.rs:294-310 | Terminates and returns, without duplicates and in nondecreasing link distance, exactly the ids reachable by forward or back links except the start |
| `Expansion.LevelIsDistance` | clients/lib/src/display.rs:294-310 | The level at which an id is found is the length of a shortest walk to it |
| `LinkCounting.ComputeAllLinkCounts` | clients/lib/src/display.rs:361-390 | For any hash-map iteration order: forward is the number of cards linked to only, back the number linked from only, mutual the number linked both ways, among the cards held |
| `LinkCounting.OutgoingIs` | clients/lib/src/display.rs:361-374 | A target is counted exactly if it is a card that is held and some card with the id links to it |
| `LinkCounting.TotalsBalance` | clients/lib/src/display.rs:361-390 | Forward totals equal back totals over all cards, and mutual totals are even |
| `LinkCounting.ComputeAllLinkCountsRecursive` | clients/lib/src/display.rs:397-413 | Per card, the exact direct counts, and a transitive count of the ids reached beyond direct links less the back links that expansion does not reach |
| `LinkCounting.NeverSaturates` | clients/lib/src/display.rs:397-413 | With symmetric links the subtraction never saturates and the transitive count is the number of ids reached beyond the direct links |
| `LinkCounting.SaturatesExactly` | clients/lib/src/display.rs:397-413 | The subtraction is exact if and only if no more back links are unreached than there are ids beyond the direct links |
| `LinkCounting.CountsCardsExactly` | clients/lib/src/display.rs:350-352 | The ids beyond the direct links are all cards if and only if every card of the component references cards only |
| `LinkCounting.UpperCaseSaturates` | clients/lib/src/display.rs:397-413 | A card named in upper case is an instance that saturates |
| `CacheModel.SurvivesWhole` | clients/wasm/src/components/card_list.rs:113-152 | Selective invalidation never breaks a group: with one entry of a shared group all survive |
| `CacheModel.InvalidateKeeps` | clients/wasm/src/components/card_list.rs:113-152 | Invalidation keeps the invariant that each entry's group is connected and closed under its members' recorded links |
| `CacheModel.SurvivorsAreCurrent` | clients/wasm/src/components/card_list.rs:95-152 | When digests tell contents apart, what survives was recorded from the current contents of current cards |
| `CacheModel.ComponentIsGroup` | clients/wasm/src/components/card_list.rs:215-244 | A component filled at once is a group: shared, connected and closed |
| `CacheModel.FillKeeps` | clients/wasm/src/components/card_list.rs:215-254 | Filling a component keeps the invariant, also where it overwrites stale entries |
| `LinkCaching.ComputeFingerprint` | clients/wasm/src/components/card_list.rs:62-67 | The fold computes the wrapping fingerprint of card count and version sum |
| `LinkCaching.FingerprintExact` | clients/wasm/src/components/card_list.rs:60-67 | Lists of one length have one fingerprint exactly when their version sums agree modulo 2^64 |
| `LinkCaching.OneStepIsNoticed` | clients/wasm/src/components/card_list.rs:60-71 | Editing a card so that its count rises, adding one or removing one always changes the fingerprint, whatever changes places; so does a list one longer or shorter, as long as the version sum moves by less than 2^62 |
| `LinkCaching.IsLinkedIs` | clients/wasm/src/components/card_list.rs:78-89 | The linked cards are those that link to another card held, or that one links to |
| `LinkCaching.HashedAreNeeded` | clients/wasm/src/components/card_list.rs:93-111 | Hashed are the contents of cached and of linked cards, and no others |
| `LinkCaching.ScheduledWhenNeeded` | clients/wasm/src/components/card_list.rs:160-175 | A pass is scheduled exactly when some linked card is left without an entry |
| `LinkCaching.SurvivesExactly` | clients/wasm/src/components/card_list.rs:113-152 | Over a right cache, the entry of a component of linked cards survives a change if and only if each of its cards is still there with its content, so untouched components are not computed again |
| `LinkCaching.StartKeeps` | clients/wasm/src/components/card_list.rs:95-169 | A pass starts with its invariant: the work list covers every linked card whose entry did not survive |
| `LinkCaching.TurnKeeps` | clients/wasm/src/components/card_list.rs:202-245 | One turn that fills a component keeps the pass invariant |
| `LinkCaching.DrainedIsExact` | clients/wasm/src/components/card_list.rs:202-284 | When a pass drains its queue, the entries are exactly those of the linked cards' components, and each is what the expansion returns |
| `LinkCaching.RunTurns` | clients/wasm/src/components/card_list.rs:197-245 | One callback makes one turn, and one more for each unit of idle budget, until the list is done, and keeps the pass invariant |
| `LinkCaching.CancelledKeeps` | clients/wasm/src/components/card_list.rs:192-194 | A cancelled callback that fires changes nothing |
| `LinkCaching.ProgressKeeps` | clients/wasm/src/components/card_list.rs:247-284 | A callback that gets further keeps the state consistent; one that drains the queue leaves the cache exact |
| `LinkCaching.StartConsistent` | clients/wasm/src/components/card_list.rs:74-298 | Starting a pass over any leftovers keeps the state consistent |
| `LinkCaching.LinkCache.Disable` | clients/wasm/src/components/card_list.rs:52-60 | Switching off cancels the running pass, empties the cache and forgets the fingerprint |
| `LinkCaching.LinkCache.OnChange` | clients/wasm/src/components/card_list.rs:47-298 | The effect: nothing on an unchanged fingerprint, otherwise eviction, a new generation and one scheduled pass over what is missing |
| `LinkCaching.LinkCache.Invalidate` | clients/wasm/src/components/card_list.rs:116-152 | The in-place removals equal the eviction function |
| `LinkCaching.LinkCache.RunCallback` | clients/wasm/src/components/card_list.rs:191-285 | Any scheduled callback, current or cancelled, keeps the invariant; a current one advances or finishes |
| `LinkCaching.LinkCache.RunToEnd` | clients/wasm/src/components/card_list.rs:191-285 | Running the current pass to its end makes the cache exact for its cards |
| `LinkSessions.Session` | clients/wasm/src/components/card_list.rs:47-298 | Over every run of card changes, switches and callbacks in any order, on lists with unique ids and lower-case references and with telling digests: whenever no current callback waits the cache is exactly right for the last list the fingerprint guard let through, and none waits once as many callbacks have run since the last change as all lists together have cards, plus one per list; and always every cached group is connected and closed under the links it was recorded with; when each change edits, adds or removes one card, the last list let through is the last list; entries of linked cards carry the digests of their contents |
| `LinkSessions.StepsPassTheGuard` | clients/wasm/src/components/card_list.rs:60-71 | When each change edits, adds or removes one card, the guard lets every one through |
| `LinkSessions.ChangeIsTrustworthy` | clients/wasm/src/components/card_list.rs:62-152 | Within such a run every change meets what the invariant needs: symmetric links, digests that tell recorded from current contents, and no callback left over from an earlier turn of the counter |
| `LinkSessions.Settle` | clients/wasm/src/components/card_list.rs:47-298 | After a session, one more change and enough callbacks, the cache is right for the new list if and only if its fingerprint differs from the remembered one or it covers the same linked components; so always when the change edits, adds or removes one card |
| `LinkSessions.GuardExact` | clients/wasm/src/components/card_list.rs:62-71 | Once settled after a change, the cache is right for the new list if and only if the fingerprint differed or the list has the same linked components as the one the cache was right for |
| `LinkSessions.RightForBoth` | clients/wasm/src/components/card_list.rs:62-71 | One cache is right for two lists if and only if they cover the same ids with equal components |
| `LinkSessions.FingerprintCanMiss` | clients/wasm/src/components/card_list.rs:62-71 | A deletion together with an addition keeps the fingerprint and changes what is to be cached |
| `Canonical.CanonicalCardHash` | protocol/src/hash/hash.rs:29-67 | The step-by-step hasher is fed exactly the canonical card bytes, tags from a sorted copy |
| `Canonical.CanonicalTagHash` | protocol/src/hash/hash.rs:88-128 | The same for tags, with the implies block only when there is one |
| `Canonical.CardRoundTrip` | protocol/src/hash/hash.rs:41-66 | A decoder recovers every field of a card, the tags sorted |
| `Canonical.TagRoundTrip` | protocol/src/hash/hash.rs:98-127 | A decoder recovers every field of a tag, with optional colour and trailing implies block |
| `Canonical.CardLayout` | protocol/src/hash/hash.rs:5-67 | Each field of a card stands at its place, byte by byte: numbers most significant byte first and signed ones in two's complement, tags sorted, flag 1 before a due date and 0 without one |
| `Canonical.TagLayout` | protocol/src/hash/hash.rs:69-128 | The same for tags |
| `Canonical.CardBytesExact` | protocol/src/hash/hash.rs:41-66 | Two cards have equal bytes if and only if their fields are equal up to the order of tags |
| `Canonical.TagBytesExact` | protocol/src/hash/hash.rs:98-127 | Two tags have equal bytes if and only if their fields are equal up to the order of implies |
| `Canonical.CardsAreNotTags` | protocol/src/hash/hash.rs:29-128 | No card has the bytes of a tag |
| `Bytes.BigEndianRoundTrip` | protocol/src/hash/hash.rs:29-67 | Fixed-width big-endian integers read back as written |
| `Bytes.BigEndianDigit` | protocol/src/hash/hash.rs:41-66 | Byte i of k is the digit of weight 256 to the power k - 1 - i |
| `Chains.NormalizeIs` | protocol/src/tag/tag.rs:80-84 | Normalising gives the set of implied tags in ascending order, and is idempotent |
| `Chains.NormalizeInPlace` | protocol/src/tag/tag.rs:80-84 | Sorting and dropping equal neighbours in place computes it |
| `Chains.BuildFirstCard` | protocol/src/card/card.rs:134-159 | Sorting, filling in with a placeholder and overwriting the hash gives the specified first version, which verifies |
| `Chains.BuildNextCard` | protocol/src/card/card.rs:162-187 | The same for the next version: same id and creation time, one more in count, linked to the previous hash |
| `Chains.BuildFirstTag` | protocol/src/tag/tag.rs:139-159 | The same for the first version of a tag, implies normalised |
| `Chains.BuildNextTag` | protocol/src/tag/tag.rs:167-187 | The same for the next version of a tag |
| `Chains.CardHistoryIsChain` | protocol/src/card/card.rs:134-187 | Every history built by the constructors is a chain: verified, sorted, counted from one, linked by hash, with one id and creation time |
| `Chains.CardHistoryCarries` | protocol/src/card/card.rs:134-187 | The first version carries the first edit and each later one its edit, in content, priority, tags, flag, due date and time, all with the id and creation time of the first |
| `Chains.TagHistoryIsChain` | protocol/src/tag/tag.rs:134-187 | The same for tags |
| `Chains.TagHistoryCarries` | protocol/src/tag/tag.rs:134-187 | The same for tags: title, colour, time and the set of implied tags |
| `Chains.CardHeadPinsHistory` | protocol/src/card/card.rs:134-187 | Two chains that share a hash agree version by version up to it and at the same count, or two different byte strings with one hash are exhibited |
| `Chains.TagHeadPinsHistory` | protocol/src/tag/tag.rs:134-187 | The same for tags |
| `Chains.CardHistoriesAgree` | protocol/src/card/card.rs:134-187 | Two histories built by any edits that end in the same hash are equal, or a collision is exhibited |
| `Chains.TagHistoriesAgree` | protocol/src/tag/tag.rs:134-187 | The same for tags |
| `Chains.StoredCardsLoad` | protocol/src/card/card.rs:100-131 | Every version of a chain is accepted back from its parts |
| `Chains.StoredTagsLoad` | protocol/src/tag/tag.rs:104-131 | The same for tags |
| `Chains.TamperingIsFound` | protocol/src/card/card.rs:100-131 | Parts accepted under a card's hash have its fields up to tag order, or a collision is exhibited |
| `Chains.TagTamperingIsFound` | protocol/src/tag/tag.rs:104-131 | Parts accepted under a tag's hash load as that very version, or a collision is exhibited |
| `Chains.CardAndTagHashesApart` | protocol/src/hash/hash.rs:29-128 | A card and a tag with one hash exhibit a collision |
| `IndexMaps.InsertedIs` | clients/lib/src/sync.rs:27-29 | Inserting into the ordered map keeps keys unique and updates the contents at one key |
| `IndexMaps.InsertedKeepsPlaces` | clients/lib/src/sync.rs:27-29 | A known key keeps its place and a new one goes last |
| `IndexMaps.SwapRemovedIs` | clients/lib/src/sync.rs:24-26 | Removing by swap keeps keys unique and drops one key |
| `IndexMaps.SwapRemovedPlaces` | clients/lib/src/sync.rs:24-26 | The last entry takes the place of the removed one and all others keep theirs |
| `IndexMaps.Rearranged` | clients/lib/src/sync.rs:32-33 | Sorting the entries changes nothing about the contents |
| `Sync.SortByPriority` | clients/lib/src/sync.rs:32-33 | The unstable sort gives some rearrangement in descending priority, ties left open |
| `Sync.ApplyCardChangeset` | clients/lib/src/sync.rs:20-34 | The merged list holds each id once, highest priority first, and its contents are the old ones without the deleted, then the upserted ones |
| `Sync.ApplyTagChangeset` | clients/lib/src/sync.rs:41-55 | The same merge for tags, in the order the map leaves them |
| `SyncLaws.MergedCardsAre` | clients/lib/src/sync.rs:20-34 | Card by card, the merged list holds the change set's cards, and those current ones that it neither replaces nor deletes; of several with one id, the last |
| `SyncLaws.MergedTagsAre` | clients/lib/src/sync.rs:41-55 | The same for tags |
| `SyncLaws.LastMentionWins` | clients/lib/src/sync.rs:20-34 | After any run of change sets, what an id holds is what the last set that mentions it says, upserts winning within one set |
| `SyncLaws.ReplayChangesNothing` | clients/lib/src/sync.rs:20-34 | Replaying a run from any earlier point, or its last set alone, changes nothing |
| `SyncLaws.CombinedRun` | clients/lib/src/sync.rs:20-34 | A whole run equals one combined set, from every start |
| `SyncLaws.FaithfulExact` | clients/lib/src/sync.rs:20-34 | A set leads from one snapshot to another if and only if it upserts what is new or changed, nothing else than the target holds, and deletes what is gone |
| `SyncLaws.RunReachesSnapshot` | clients/lib/src/sync.rs:20-34 | Faithful deltas between successive snapshots lead to the last one, and so does any faithful shortcut |
| `SyncLaws.SyncCards` | clients/lib/src/sync.rs:20-34 | The code, run over a sequence of sets, computes that fold and keeps the list ordered and unique |
| `SyncLaws.ListIsDetermined` | clients/lib/src/sync.rs:32-33 | With distinct priorities contents and order leave only one list |
| `SyncLaws.ReconcileIsExact` | clients/lib/src/sync.rs:67-80 | A card is kept, as often as it is queued, exactly when it is new or no local version is strictly newer; a queue without stale cards is left as it is |
| `SyncLaws.ReconcileKeeps` | clients/lib/src/sync.rs:56-80 | A queued card is kept exactly if it names no ancestor, or no local card with its id has a strictly higher count |
| `SyncLaws.ReconcileInOrder` | clients/lib/src/sync.rs:67-80 | Reconciling goes card by card, so the kept cards stay in queue order |
| `Trimming.TrimContentIsTrimmed` | clients/lib/src/sync.rs:85-92 | On every input the result neither starts nor ends with space and no line of it ends with space; its lines are the trimmed text's lines less trailing space |
| `Trimming.TrimIsMiddle` | clients/lib/src/sync.rs:85-92 | Trimming a text takes space off both ends only |
| `Trimming.SpacesAre` | clients/lib/src/sync.rs:85-92 | Space is exactly the 25 code points with the Unicode property White_Space |
| `Trimming.TrimContentIsIdempotent` | clients/lib/src/sync.rs:85-92 | Trimming again changes nothing, on every input |
| `Trimming.TrimContentKeepsInk` | clients/lib/src/sync.rs:85-92 | Every character that is not space survives, in order |
| `TaskItems.ParseTaskItem` | clients/lib/src/display.rs:171-203 | The scan computes the box of a line |
| `TaskItems.ParseIsExact` | clients/lib/src/display.rs:171-203 | A line is accepted if and only if it is indentation, a bullet, at least one space and a box; the box read off is the one in the line |
| `TaskItems.FlipBox` | clients/lib/src/display.rs:139-148 | Copying around the box and writing the other mark flips exactly that box of the line |
| `TaskItems.FlippedLineParses` | clients/lib/src/display.rs:139-203 | A flipped line is still a task item with its box in the same place and the other mark |
| `TaskLists.ToggleTaskItem` | clients/lib/src/display.rs:130-164 | The loop succeeds exactly when the index is below the number of task items, and rebuilds the lines with that one flipped |
| `TaskLists.ToggleSucceeds` | clients/lib/src/display.rs:130-164 | A toggle succeeds exactly if the text has a task item with that number |
| `TaskLists.TaskProgress` | clients/lib/src/display.rs:208-220 | The loop counts all and checked task items, and reports none when there are none |
| `TaskLists.ProgressIs` | clients/lib/src/display.rs:208-220 | Progress is the number of checked and of all task items, and absent exactly if there are none |
| `TaskLists.CountsAreOfAll` | clients/lib/src/display.rs:208-220 | The totals are the number of lines that are task items and of those whose box is not empty |
| `TaskLists.MarkIsInBox` | clients/lib/src/display.rs:130-164 | The offset of a mark lies inside a box, and offsets follow the index |
| `TaskListLaws.ToggleMovesProgress` | clients/lib/src/display.rs:130-220 | On every text, a toggle keeps the total and moves the done count by exactly one |
| `TaskListLaws.ToggleChangesOneBox` | clients/lib/src/display.rs:130-164 | Only that box changes in the text if and only if the text has no CRLF |
| `TaskListLaws.ToggleTwice` | clients/lib/src/display.rs:130-164 | Toggling twice restores the text if and only if it has no CRLF and the box was not an upper-case `X` |
| `TaskListLaws.ToggleDropsCrLf` | clients/lib/src/display.rs:130-164 | An example that loses a carriage return |
| `Text.LinesOfUnlines` | clients/lib/src/display.rs:130-164 | Joining lines and splitting again only costs carriage returns before a newline |
| `Text.RebuiltExact` | clients/lib/src/display.rs:130-164 | Splitting into lines and rejoining restores a text if and only if it has no CRLF |
| `SeedPriorities.FindLargestGapMidpoint` | clients/dev-seeder/src/seed/seed.rs:162-182 | The scan returns the middle of the first of the widest gaps |
| `SeedPriorities.WidestMiddleIsFree` | clients/dev-seeder/src/seed/seed.rs:162-182 | That middle is unused if and only if some value below the maximum is |
| `SeedPriorities.ResolvePriority` | clients/dev-seeder/src/seed/seed.rs:127-159 | Overflows exactly for a used maximum. A free value is kept; any other used one becomes the middle of the wider gap beside it, or of the widest gap when both are exhausted, and is then unused if and only if some value below the maximum is |
| `SeedPriorities.RoomByCounting` | clients/dev-seeder/src/seed/seed.rs:127-182 | Fewer than 2^64 - 1 used values always leave room; 2^64 - 1 of them can leave none |
| `SeedPriorities.UsedPriorities.Claim` | clients/dev-seeder/src/seed/seed.rs:188-192 | Resolves against the used values and records the result; fails exactly for a used maximum |
| `SeedPriorities.UsedPriorities.Shift` | clients/dev-seeder/src/seed/seed.rs:199-205 | Frees the old value and resolves the nearby one against the others; fails exactly when that is the maximum and another card has it |
| `SeedPriorities.NearbyIsNear` | clients/dev-seeder/src/seed/seed.rs:194-205 | A shift asks for a value at most half a million away, cut to the range, and for any such value under some draw |
| `SeedPriorities.SeedRun` | clients/dev-seeder/src/seed/seed.rs:188-205 | Over any run of claims and shifts each step resolves against the live values, no two live cards ever share one, and the run stops early only at a step that overflows |
| `SeedPriorities.TakeStep` | clients/dev-seeder/src/seed/seed.rs:188-205 | One step fails if and only if it asks for the maximum while another live card has it |
| `SeedTags.ApplySeededImplications` | clients/dev-seeder/src/seed/seed.rs:229-265 | The loop leaves exactly what the stream of draws determines: each chain after the first is left alone or gains one version with the drawn parents |
| `SeedTags.SeededAugments` | clients/dev-seeder/src/seed/seed.rs:229-265 | Drawn parents are one or two different tags at earlier places, whatever is drawn |
| `SeedTags.DrawnForQuarter` | clients/dev-seeder/src/seed/seed.rs:239-242 | Of a hundred rolls 25 give parents |
| `SeedTags.AnyTwoParents` | clients/dev-seeder/src/seed/seed.rs:243-254 | Any two different earlier tags are the parents under some draws |
| `SeedTags.GraphFromChains` | clients/dev-seeder/src/seed/seed.rs:268-274 | The graph holds the live version of every chain |
| `SeedTags.EarlierOnlyIsAcyclic` | clients/dev-seeder/src/seed/seed.rs:229-265 | When every tag implies only earlier ones and ids are distinct, no walk returns to its start |
| `SeedTags.SeededGraphIsAcyclic` | clients/dev-seeder/src/seed/seed.rs:229-274 | However the draws fall the seeded graph is acyclic |
| `SeedTags.SeededCycle` | clients/dev-seeder/src/seed/seed.rs:1196-1197 | Running cycle detection on it returns `None` |
| `SeedTags.SeedingIsAcyclicExactly` | clients/dev-seeder/src/seed/seed.rs:229-274 | Seeding leaves an acyclic graph for every stream of draws if and only if the tag ids are distinct |
| `SeedTags.SharedIdCycles` | clients/dev-seeder/src/seed/seed.rs:229-265 | For every repeated id there are draws that make its tag imply itself |
| `SeedCards.PickTags` | clients/dev-seeder/src/seed/seed.rs:544-553 | The partial shuffle picks the asked number of tags at different places of the list |
| `SeedCards.PickFields` | clients/dev-seeder/src/seed/seed.rs:533-541 | As many different fields are edited as the roll asks for |
| `SeedCards.FieldCountShares` | clients/dev-seeder/src/seed/seed.rs:432-440 | Of a hundred rolls 80 change one field, 17 two and 3 three |
| `SeedCards.ClosedTags` | clients/dev-seeder/src/seed/seed.rs:278-283 | The closure as a sorted list; dropping repeats changes nothing |
| `SeedCards.FirstTags` | clients/dev-seeder/src/seed/seed.rs:349-375 | A new card's tags are the closure of the drawn number of picks, at different places of the tag list |
| `SeedCards.FirstCountShares` | clients/dev-seeder/src/seed/seed.rs:349-375 | Of a hundred rolls 20 give no tags, 40 one or two, 30 three to five and 10 at least half of those available |
| `SeedCards.AnyFirstCount` | clients/dev-seeder/src/seed/seed.rs:349-375 | Each of those numbers is drawn for some draw, up to all tags available |
| `SeedCards.EditTags` | clients/dev-seeder/src/seed/seed.rs:465-491 | The edited tags are the closure of what the draws make of the old ones: one removed, one added, or some picked anew |
| `SeedCards.EditField` | clients/dev-seeder/src/seed/seed.rs:442-506 | Each edit changes its one field only, keeps the tags closed and the priority apart; it fails exactly for a priority whose nearby value is the maximum while another card has it |
| `SeedCards.NextEdit` | clients/dev-seeder/src/seed/seed.rs:416-509 | An edit is the drawn number of different fields changed one after the other; it fails exactly when one of its priority edits overflows, each from where the one before led |
| `SeedCards.GenerateCardHistory` | clients/dev-seeder/src/seed/seed.rs:397-512 | As many versions as the draws ask for, properly chained, each with closed tags, the card's priority apart from all others and led there by its drawn priority edits; it fails exactly when one of those overflows, as no edit before it did |
| `SeedCards.EditCountShares` | clients/dev-seeder/src/seed/seed.rs:405-418 | Of a hundred rolls 10 leave no history, 27 give one or two edits and 63 three to seven, each number under some draw |
| `SeedBoards.GenerateCards` | clients/dev-seeder/src/seed/seed.rs:329-387 | Over a whole board threading one used set: every card starts at what its even share of the range resolves to and is a proper chain of closed versions, final priorities pairwise distinct and exactly the used ones; it stops early only if a finished card has the maximum |
| `SeedBoards.SharesAreEven` | clients/dev-seeder/src/seed/seed.rs:337-346 | The shares lie one step apart from the top, the step as wide as fits between the ends |
| `SeedBoards.GenerateCard` | clients/dev-seeder/src/seed/seed.rs:342-385 | One card: claimed priority, closed tags, first version, history; it fails exactly when one of its priority edits overflows |

## Left out

- Network, storage, scheduling and views: QUIC and WebTransport, TLS, SQLite, OPFS, the service worker, Leptos signals. The cache pass is modelled by its steps, with any scheduler.
- BLAKE3, UUID and text generation, clocks: parameters or arbitrary functions. The random generator is a stream of arbitrary numbers.
- Finding ids in text: which ids the pattern matches and which lower-case ids occur is part of a card's content here, so regular expressions are not modelled.
- Markdown rendering, HTML linkifying, filters, due-date labels, colours, `priority_percentage`: single functions without state, over libraries or floating point.
- postcard, wire framing, version handshake and error mapping.
- Sub-millisecond parts of timestamps, which the canonical encoding does not see either.
- `clients/wasm/src/components/card_detail.rs:746` writes one cache entry without its component; the cache results are for the background pass as the only writer. A cache loaded from an earlier session is not modelled either: a session starts empty.
- LinkSessions.Session: for sessions of fewer than 2^32 card changes and switches, with any number of callbacks, so that the 32-bit generation counter does not wrap; a callback that outlives a full turn of the counter is not modelled.
- LinkCaching.LinkCache.OnChange: the two settings that switch the feature on are one flag, and progress counters are not kept.
- Priority arithmetic is on unbounded integers, like the source's 128-bit intermediate values; results are typed as 64-bit.
- SeedPriorities.ResolvePriority: the overflow at a used maximum is an outcome of its own, as in a checked build; a build without overflow checks goes on with a wrapped bound.
- SeedCards.GenerateCardHistory: texts, due dates and edit times are arbitrary, and the seeder's later operations (extra updates, deletions, injected links) are not modelled.
- Sync.SortByPriority: the order of equal priorities is left open, as the library leaves it.
- Workflow.PushReproducesPlacement: editor, server and receiver start from the same list; concurrent edits by a third are the server's to reject and are not modelled. What the editor sends or queues after a refusal is not modelled either.
- Pushing.SqliteStorage.PushBatch: items of card versions only; tag items, deletions, the implication check over a batch, the stored version history, sequence numbers and root hashes are not modelled. Of two cards with one priority the refusal's error does not name the other.
- TaskItems.ParseTaskItem: on characters instead of bytes, which differ in offsets only, since all that is compared is ASCII and precedes the box.
- Chains.CardHistoryIsChain: reaching the last version count is excluded, where the source panics.
