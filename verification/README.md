# Proofs about DNFGameCapture

A Dafny model of the parts of DNFGameCapture (a C++ desktop program that recognises players in a
game and shares what it knows about them) whose correctness is least obvious, with proofs of what
those parts promise. Each module models one component in the component's own form: loops over
arrays and maps are methods with invariants, objects are classes, protocols are state machines
over their atomic steps, and pure code is functions. Each such method is proved against a
specification, and the results below are proved about the specification.

`dafny verify dfyconfig.toml` checks everything.

## The components

**Identity groups** (`CliqueCover`, `IdentityGroups`, `IdentityPairwise`, `IdentityClusters`,
`IdentityListing`, `IdentityIndexed`, `IdentityDetermined`, `IdentityMeaning`). Names whose ID sets share at least five keys may belong to
one player. The plain analysis compares all pairs and takes a greedy clique cover. The indexed
analysis interns keys, merges entries with equal key sets, streams one counter per seed over an
inverted index and skips hopeless seeds. Both are proved to return `ExactGroups`, which is specified
by first fit and independent of input order, and, when nothing is cut, the same list of suggestions.
The caps of the indexed analysis are proved to touch the displayed suggestions only, and to lose
none of the evidence; when they cut is proved exactly, and that the answer, cut or not, does not
depend on the order of the input.

**Cloud client queues** (`CloudQueue`, `CloudTickets`, `CloudRuns`, `CloudInbound`, `CloudLedger`,
`CloudPlaces`, `CloudSafety`, `CloudTheorems`, `CloudLosses`, `CloudRemembered`, `CloudSequences`,
`CloudJoins`, `CloudRooms`, `CloudOrders`, `CloudDelivery`, `CloudCredits`, `CloudClient`). A command queue, a table of acknowledgements, a slot
for the latest snapshot and an inbound queue are held together by credits that keep a place for
every result still owed. A step is what one thread does while it holds the mutex; the steps of the
user's thread, of the worker and of the dispatcher interleave in any order. `CloudClient.Client` is
the object itself, each method proved to change it as its step says and to keep its invariant: the
bounds, where things belong, and one credit for every entry. The credits beyond these, its spare
ones, are owed by the threads that took an entry out. Every accepted operation carries a ticket of
the model's own, so that "exactly one result" can be said of runs; the tickets decide nothing.

**The cancelable slot** (`CancelableSlot`). Blocking network calls publish their handle in one atomic
slot, from which another thread may take it to close it. The states between two atomic accesses are
states of the model.

**Player library** (`PlayerLibrary`, `LibraryJoin`, `LibraryMerge`, `LibraryMemory`,
`LibraryMerging`, `LibrarySplit`, `LibrarySplitting`, `LibraryRestoring`, `LibraryUndoing`,
`LibraryCoalescing`, `LibrarySyncing`, `LibraryDeferred`, `LibraryImport`, `LibraryPlanning`,
`LibraryLimits`, `LibraryComponents`, `LibraryCommands`, `LibraryMeaning`, `IdentityRedirects`). Entities are united and divided again; a union keeps what its constituents
were. `Home` says of a name which constituent it belongs to, wherever it is now: merging and
coalescing preserve it, for any names whose own groups have saved the truth
(`LibraryMemory.FitsOn`). Splitting restores it, and so undoes any number of nested merges, under
conditions on the library before the split that are proved to be exact; `LibraryLimits` holds
libraries that do not meet them. Every command computes its first new ID from the stored entities
only, and nothing more is supposed of it.

**Texts and codecs** (`Utf8`, `WebSocketText`, `PlayerIds`, `LegacyText`, `LegacyRoundTrip`,
`LegacyLines`, `LicenseLease`). UTF-8 validation against an independent definition of encoding, reassembly of
WebSocket messages, the legacy library file and the licence lease, each with its round trip.

**LAN team sync** (`LanTeamSync`). The server pushes snapshots to a subscriber after a pause in
editing. Edits, the rounds of both loops, the loading of a revision and of the snapshot, sending and
receiving are separate steps.

**Identity matcher** (`IdentityMatcher`, `LongestCommonSubsequence`). Which candidate an OCR reading is
accepted as, and the text similarity under it.

`Ordering`, `Collections` and `Options` hold what the others share: the lexicographic orders, sorting,
facts about sets and sequences, and an optional value.

## What the proofs found

- The front-pop loop of a sending pass compares each command with the generation that the pass began
  under, not with the present one, and frees no credit (DNFGameCapture/CloudMatchClient.cpp:2709-2711).
  After a reconfiguration during a pass it discards commands of the new configuration, which then never
  get a result while their credits stay taken. `CloudLosses.StalePassStrands` is such a run.
- A registration that finds the cancel slot held returns without a result
  (DNFGameCapture/CloudMatchClient.cpp:2135-2136); `CloudLosses.HeldSlotStrands` is such a run.
- `CloudTheorems.LostExactlyWhere` shows that there is no other way to lose an operation except while
  stopping, so within one configuration the credits equal the operations owed a result exactly after runs
  without these steps (`CloudTheorems.ExactExactlyWhenLossless`).
- An unsent command goes back to the front without a look at the limit, so the command queue can hold
  65 commands (`CloudLosses.QueueOverLimit`, and exactly when: `CloudTheorems.OverLimitExactlyWhere`). The documented limits on results, messages and
  acknowledgements hold always.
- Joining a room resets the sequence that the remembered name was confirmed with
  (DNFGameCapture/CloudMatchClient.cpp:1812-1824), so a rename issued before the join and acknowledged after
  it overrides the name given to the join, and acknowledged before it does not
  (`CloudJoins.LateConfirmationWins`). `CloudJoins.JoinSettlesName` says exactly when this can happen.
- The first new ID of a command lies above the stored IDs (DNFGameCapture/PlayerLibraryDatabase.cpp:335), not
  above the saved ones. An import that creates entities and coalesces them at once saves IDs that are never
  stored, and these are issued again. A split can then give a name, as its new ID, the saved ID that another
  name gets back, and two players come back as one (`LibraryLimits.TwoComeBackAsOne` after three imported
  rows, `LibraryLimits.TwoOfAllComeBackAsOne` when all names are split off).
  `LibrarySplit.SourcesComeBackApart` says exactly when it happens, and `LibrarySplit.NextAboveSavedIsEnough`
  that a first new ID above the saved ones would prevent it.
- A group keeps the snapshots of names that were split off from it (`LibraryLimits.SnapshotsOutlive`). When such a name is merged with the group
  again, its old snapshot wins over what it has become (`LibraryLimits.OldSnapshotWins`), even over the true
  snapshot of the group it is in now, if that stands before the old one (`LibraryLimits.LaterGroupWins`).
  `LibraryMerge.MergeSavesAsIs` says exactly when a merge remembers a name as it is.
- An imported row that is rejected because one of its matches has another owner still claims its other
  matches, and can have another row rejected (`LibraryPlanning.RejectedRowRejects`); exactly when is said by
  `LibraryPlanning.RejectedByRejected`.
- The comparison key is injective only on texts without U+001F (`PlayerIds.ControlTextsCollide`).
- A legacy library whose first name begins with U+FEFF does not survive writing and reading
  (`LegacyRoundTrip.MarkIsLost`), because the reader strips one such character whatever wrote it.

## Model

| member | source | states |
|---|---|---|
| IdentityGroups.EntryOrder | DNFGameCapture/PlayerIdentityGroupService.cpp:98-107 | The entry order, by name and then by ID list, is total. |
| IdentityGroups.EntriesByName | DNFGameCapture/PlayerIdentityGroupService.cpp:98-107 | Entries are taken in the order of their names, and under one name in that of their ID lists. |
| Ordering.SortByCanonical | DNFGameCapture/PlayerIdentityGroupService.cpp:98-107 | Sorting by a total order gives the same list for every arrangement of the same entries. |
| CliqueCover.FirstFitUnique | DNFGameCapture/PlayerIdentityGroupService.cpp:178-193 | The greedy rule (an item joins the first earlier group whose every member it is adjacent to, else it starts one) leaves no choice: any two numberings that obey it are equal. |
| CliqueCover.GroupsAreCliques | DNFGameCapture/PlayerIdentityGroupService.cpp:183-191 | Any two members of one group are adjacent: no chaining. |
| CliqueCover.LaterItemsMissSomeMember | DNFGameCapture/PlayerIdentityGroupService.cpp:183-191 | An item of a later group misses the threshold with some member of every earlier group. |
| CliqueCover.CompressionKeepsCover | DNFGameCapture/PlayerIdentityGroupService.cpp:294-296 | Covering one representative per class of interchangeable items, lifted back, is the cover of the items. |
| IdentityGroups.GroupedEntriesShareKeys | DNFGameCapture/PlayerIdentityGroupService.cpp:150-154 | Two entries of one group share at least five keys of their own original sets. |
| IdentityGroups.EntryOutsideEarlierGroup | DNFGameCapture/PlayerIdentityGroupService.cpp:150-154 | An entry outside an earlier group shares fewer than five keys with some earlier member of it. |
| IdentityGroups.ExactGroupsAre | DNFGameCapture/PlayerIdentityGroupService.cpp:195-207 | The groups reported are one for every group number that two entries or more have, and no others: with the names of all these entries, each as often as it is there, sorted, under the ID of these names, and in the order of the names. |
| IdentityGroups.GroupedAreReported | DNFGameCapture/PlayerIdentityGroupService.cpp:195-207 | Two entries with one group number are named together in a reported group. |
| IdentityGroups.ReportedAreGrouped | DNFGameCapture/PlayerIdentityGroupService.cpp:195-207 | A reported group names exactly the entries of one group number, of which there are at least two. |
| IdentityGroups.ExactGroupsIgnoreInputOrder | DNFGameCapture/PlayerIdentityGroupService.cpp:98-107 | The groups do not depend on the order of the input entries. |
| IdentityGroups.CompressionKeepsGroups | DNFGameCapture/PlayerIdentityGroupService.cpp:195-207 | Grouping compressed clusters reports the same groups as grouping the entries one by one. |
| IdentityPairwise.UniqueIds | DNFGameCapture/PlayerIdentityGroupService.cpp:15-26 | What remains are non-empty IDs, no two equivalent, one for every equivalent given. |
| IdentityPairwise.CommonCountIsIntersection | DNFGameCapture/PlayerIdentityGroupService.cpp:28-39 | Under key equality the pair count of a deduplicated list is the size of the intersection of the key sets. |
| IdentityClusters.CoverByNeighbors | DNFGameCapture/PlayerIdentityGroupService.cpp:169-194 | The neighbour-list loop computes the greedy cover of the strong pairs. |
| IdentityClusters.SuggestOverlaps | DNFGameCapture/PlayerIdentityGroupService.cpp:209-224 | The list made is exactly the first suggestions of the overlapping pairs of different groups, one for each pair of names, as many as the limit admits, and truncation is reported exactly when there are more. |
| IdentityClusters.SuggestionsMembers | DNFGameCapture/PlayerIdentityGroupService.cpp:209-224 | The whole list holds a pair of names exactly if some overlap links their clusters across two groups. |
| IdentityClusters.BuildAnalysis | DNFGameCapture/PlayerIdentityGroupService.cpp:161-232 | Whether the groups are given or computed here, the analysis reports the groups of the cover and the suggestions up to the limit, sorted. |
| IdentityListing.AnalysisListsPairs | DNFGameCapture/PlayerIdentityGroupService.cpp:209-224 | A list of suggestions that was not cut shows every two entries of different groups with a common key exactly once: each suggestion is there as often as there are such pairs that look like it, and no other is there. |
| IdentityListing.SuggestionsIgnoreInputOrder | DNFGameCapture/PlayerIdentityGroupService.cpp:98-107 | The plain and the indexed analysis, when nothing was cut, give the same list for the same entries in any order. Lists that were cut are the subject of IdentityDetermined.IndexedAnswersIgnoreInputOrder. |
| IdentityPairwise.ComparePairs | DNFGameCapture/PlayerIdentityGroupService.cpp:248-255 | Every pair of entries is compared once, and kept with its count unless that is zero. |
| IdentityPairwise.Analyze | DNFGameCapture/PlayerIdentityGroupService.cpp:236-257 | When equivalence is equality of non-empty keys: the specified groups, exact unmarked counts in sorted order, and, unless truncated, a suggestion for every two entries of different groups with a common key, once for each such pair, and no others. Groups are reported as ExactGroupsAre says, and the list is cut only if there are more linked pairs than a 64-bit number counts. |
| IdentityIndexed.HasStrongOverlap | DNFGameCapture/PlayerIdentityGroupService.cpp:109-121 | The merge scan over two increasing lists, leaving early, decides whether they share five IDs. |
| IdentityIndexed.BuildClusters | DNFGameCapture/PlayerIdentityGroupService.cpp:268-297 | Interning and signature compression: keys are numbered one to one in the order in which they are met, each cluster holds the key set of all its entries and the names of exactly those, and no two clusters have the same set of five keys or more. |
| IdentityIndexed.NumberingKeepsCounts | DNFGameCapture/PlayerIdentityGroupService.cpp:272-285 | Replacing keys by their numbers keeps the size of every intersection. |
| IdentityIndexed.BuildPostings | DNFGameCapture/PlayerIdentityGroupService.cpp:299-302 | The posting of an ID lists, in increasing order, exactly the clusters that hold it. |
| IdentityIndexed.CounterIsOverlap | DNFGameCapture/PlayerIdentityGroupService.cpp:137-145 | After a seed has been streamed, the counter of a later free cluster is the size of its intersection with the seed. |
| IdentityIndexed.RareSeed | DNFGameCapture/PlayerIdentityGroupService.cpp:132-135 | The prefilter is safe: a seed with fewer than five IDs in shared postings is strong with no later cluster. |
| IdentityIndexed.CandidateJoins | DNFGameCapture/PlayerIdentityGroupService.cpp:148-156 | A candidate ends in the seed's group exactly when counter and member checks let it in; the rest of the pass is kept. |
| IdentityIndexed.CompleteIndexedGroups | DNFGameCapture/PlayerIdentityGroupService.cpp:123-159 | The streamed, prefiltered, in-place computation returns the greedy cover of the clusters. |
| IdentityIndexed.CountPairs | DNFGameCapture/PlayerIdentityGroupService.cpp:303-341 | In the order of posting size and key, an ID is omitted if and only if at least two clusters share it and its posting has more than 256 clusters or more pairs than the IDs before it left of 1,000,000 updates; two clusters have an overlap if and only if they share an ID that was not omitted, with exactly the number of these IDs, marked if and only if both hold an omitted one. |
| IdentityIndexed.CountedAreCapped | DNFGameCapture/PlayerIdentityGroupService.cpp:326-341 | So a pair without the mark has its exact intersection size, a marked one a lower bound, and a pair is missing only if all its common IDs were omitted. |
| IdentityIndexed.OmittedComeLast | DNFGameCapture/PlayerIdentityGroupService.cpp:303-325 | The omitted IDs are the last of that order: with an ID every shared one that more clusters hold is omitted. |
| IdentityIndexed.SharingEntriesShown | DNFGameCapture/PlayerIdentityGroupService.cpp:209-224 | Two entries of different groups with a common key appear together as a suggestion or in the evidence row of that key. |
| IdentityIndexed.AnalyzeIndexed | DNFGameCapture/PlayerIdentityGroupService.cpp:259-361 | For every input: the same groups as the plain analysis, unflagged counts exact and flagged ones lower bounds, nothing shared lost by a cap, sorted suggestions and rows, and an untruncated answer has no evidence rows and lists exactly the pairs that the plain analysis lists, each as often. The answer is that of the index: the suggestions up to 100,000, the evidence rows of the IDs omitted (and of all shared ones when the list was cut), and truncated if and only if an ID was omitted or there are more suggestions. |
| IdentityDetermined.IndexedAnswersIgnoreInputOrder | DNFGameCapture/PlayerIdentityGroupService.cpp:98-107 | The whole answer of the indexed analysis (groups, suggestions, evidence rows and the mark) does not depend on the order of the entries, cut or not. |
| IdentityDetermined.IndexIsDetermined | DNFGameCapture/PlayerIdentityGroupService.cpp:259-341 | Clusters, keys, postings, omitted IDs and counted overlaps are determined by the sorted entries, whatever the order in which a hash map gives the pairs back. |
| IdentityDetermined.CutExactly | DNFGameCapture/PlayerIdentityGroupService.cpp:343-345 | The answer is marked as truncated if and only if an ID was omitted or more than 100,000 pairs of entries of different groups share a key. |
| IdentityDetermined.PostingCountsSets | DNFGameCapture/PlayerIdentityGroupService.cpp:287-302 | The size that decides whether an ID is omitted is the number of entries with its key, where entries with one set of five keys or more count once. |
| IdentityMeaning.OmittedExactly | DNFGameCapture/PlayerIdentityGroupService.cpp:303-325 | In the order of posting size and key, a shared ID is omitted if and only if more than 256 sets have it, or its pairs together with those expanded before it exceed a million. |
| IdentityMeaning.OverlapExactly | DNFGameCapture/PlayerIdentityGroupService.cpp:326-341 | Two clusters have an overlap if and only if they share an ID that was not omitted; it counts exactly these IDs, and is marked if and only if each of the two has an omitted one. |
| IdentityMeaning.ListedUpTo | DNFGameCapture/PlayerIdentityGroupService.cpp:209-224 | When no ID was omitted the list is as long as there are linked pairs, up to 100,000. |
| IdentityMeaning.RowsExactly | DNFGameCapture/PlayerIdentityGroupService.cpp:346-356 | There is one evidence row for every ID omitted, and for every shared one once more than 100,000 suggestions were found; it names every entry with its key, as often as there are such entries, in order. |
| IdentityMeaning.AnswerInOrder | DNFGameCapture/PlayerIdentityGroupService.cpp:225-230 | Suggestions are ordered by left name, right name and count, and evidence rows by key. |
| IdentityMeaning.GroupsInOrder | DNFGameCapture/PlayerIdentityGroupService.cpp:195-208 | Groups are ordered by their names. |
| IdentityMeaning.GroupedShareFive | DNFGameCapture/PlayerIdentityGroupService.cpp:150-154 | Any two entries of one group have non-empty IDs with at least five different non-empty keys in common. |
| IdentityMeaning.SharedCounts | DNFGameCapture/PlayerIdentityGroupService.cpp:272-285 | What two entries share is counted by different non-empty keys of non-empty IDs of both. |
| IdentityMeaning.TextOrderIs | DNFGameCapture/PlayerIdentityGroupService.cpp:98-107 | A text comes before another if it is a beginning of it or has the lesser character where they first differ. |
| CloudClient.Client.DropOldest | DNFGameCapture/CloudMatchClient.cpp:1549-1558 | Drops the oldest unprotected message and nothing else, or reports that there is none. |
| CloudClient.Client.ReserveResult | DNFGameCapture/CloudMatchClient.cpp:1560-1576 | The loop refines the reservation step. In a valid object a credit is given exactly while fewer than 96 results are queued or promised, it becomes a spare one, and the object stays valid. |
| CloudClient.Client.PutInbound | DNFGameCapture/CloudMatchClient.cpp:1878-1926 | The loops refine the inbound step: stale messages ignored, coalesced in place, or room made and appended. A result with a spare credit always goes to the end of the queue and uses the credit up. |
| CloudClient.Client.EnqueueCommand | DNFGameCapture/CloudMatchClient.cpp:1778-1810 | In a valid object a command is accepted if and only if the client is open for it, fewer than 64 commands are queued and fewer than 96 results are queued or promised; no spare credit is used, and the object stays valid. |
| CloudClient.Client.StoreSnapshot | DNFGameCapture/CloudMatchClient.cpp:451-473 | In a valid object a snapshot is accepted if and only if its configuration is the present one, with credentials, and fewer than 96 results are queued or promised; the credit of the one it replaces becomes spare, for its cancellation. |
| CloudClient.Client.Cancel | DNFGameCapture/CloudMatchClient.cpp:596-629 | Both erasing loops together are the cancel step: every matching request is gone from queue and table, each freed its own credit, and the spare credits are as many as before. |
| CloudClient.Client.TakeFront | DNFGameCapture/CloudMatchClient.cpp:2704-2722 | The front-pop loop refines the take step, with its comparison to the worker's generation. Under the present generation nothing is discarded: one credit becomes spare for the command taken, none otherwise. |
| CloudClient.Client.TakeRegistration | DNFGameCapture/CloudMatchClient.cpp:2038-2050 | The scan takes the first registration of the generation out of the queue, and its credit becomes spare. |
| CloudClient.Client.HasJoin | DNFGameCapture/CloudMatchClient.cpp:2757-2769 | Whether a join of the generation is queued or any join is unacknowledged. |
| CloudClient.Client.TakeExpired | DNFGameCapture/CloudMatchClient.cpp:3061-3084 | In whatever order the table is walked, exactly the rows that are due leave it, each leaving its credit spare for its result, and a join among them is settled once. |
| CloudClient.Client.TakeTransient | DNFGameCapture/CloudMatchClient.cpp:3123-3168 | Takes exactly the selected transient commands of the generation out of the queue, in order, each leaving its credit spare for its result. |
| CloudClient.Client.PrepareRememberedJoin | DNFGameCapture/CloudMatchClient.cpp:2792-2816 | The checks refine the preparation step, with their four outcomes; a join made ready comes with one spare credit, and otherwise no credit is taken. |
| CloudCredits.EnqueueFits | DNFGameCapture/CloudMatchClient.cpp:1778-1810 | An enqueue keeps the state valid and the spare credits as they are; it is accepted exactly in the states described, so the exit that finds nothing to drop is never taken. |
| CloudCredits.InboundFits | DNFGameCapture/CloudMatchClient.cpp:1878-1926 | No operation on the inbound queue breaks the bounds or the count, and a wanted result with a spare credit is never refused. |
| CloudCredits.CancelFits | DNFGameCapture/CloudMatchClient.cpp:596-629 | Cancelling frees exactly the credits of what it removes, so that saturation at zero is never reached, and no request with the ID is left. |
| CloudCredits.CommitFits | DNFGameCapture/CloudMatchClient.cpp:2561-2606 | Entering a sent command in the table needs a free row, a fresh number and a spare credit, and uses up one credit. |
| CloudCredits.ExpireFits | DNFGameCapture/CloudMatchClient.cpp:3061-3084 | Expiry leaves as many credits spare as rows were taken. |
| CloudCredits.ReachableFits | DNFGameCapture/CloudMatchClient.cpp:1549-1926 | In every reachable state of the whole protocol the object is valid, and its spare credits are exactly those of the results in hand, of the operation the worker holds, and of the operations lost. |
| CloudSafety.StepFlow | DNFGameCapture/CloudMatchClient.cpp:1778-1926 | Within a configuration every atomic step moves operations from place to place: what was waiting is waiting still, answered, cancelled or lost, nothing is duplicated, and the credits follow. |
| CloudLedger.SupersedeAccounts | DNFGameCapture/CloudMatchClient.cpp:1748-1776 | What a new configuration or the end of a stop discards is recorded as superseded, and the credits start afresh. |
| CloudSafety.ReachableInvariant | DNFGameCapture/CloudMatchClient.cpp:1549-1926 | The invariant (located operations, balanced credits, bounded and coalesced inbound queue, conservation of operations) holds in every reachable state. |
| CloudTheorems.EachTicketInOnePlace | DNFGameCapture/CloudMatchClient.cpp:1778-1810 | Over all runs every accepted operation is in exactly one place: waiting, answered, cancelled, superseded or lost. |
| CloudTheorems.AtMostOneResult | DNFGameCapture/CloudMatchClient.cpp:1878-1926 | No operation gets two results, and an answered one is nowhere else. |
| CloudTheorems.CreditsCoverHolders | DNFGameCapture/CloudMatchClient.cpp:1560-1584 | In every reachable state the operations still owed a result number at most the credits; equally many if and only if none was lost. |
| CloudTheorems.OwedResultIsQueued | DNFGameCapture/CloudMatchClient.cpp:1893-1926 | A result of the current generation is never refused: it goes to the end of the queue and is recorded once. |
| CloudTheorems.LostExactlyWhere | DNFGameCapture/CloudMatchClient.cpp:2704-2722 | A step loses an operation if and only if it is one of four: a front-pop under a stale worker generation with commands queued, a registration that returns silently, an abort or a table clearing while stopping; and a lost operation never comes back. |
| CloudTheorems.LosslessRunIsExact | DNFGameCapture/CloudMatchClient.cpp:1560-1584 | Over a run without such a step, reconfigured or not, the credits are exactly the operations still waiting. |
| CloudTheorems.ExactExactlyWhenLossless | DNFGameCapture/CloudMatchClient.cpp:1560-1584 | Over a run within one configuration they are so at its end if and only if no step of the run was such a step. |
| CloudTheorems.AckTableNeverFull | DNFGameCapture/CloudMatchClient.cpp:2607-2611 | The table has room whenever the worker is about to use it, so the early return that would drop the command is never taken. |
| CloudTheorems.ReachableBounds | DNFGameCapture/CloudMatchClient.cpp:1549-1576 | Queued results and credits stay within 96, inbound messages and credits within 128, acknowledgements within 64, and the command queue within its limit and one. |
| CloudTheorems.OverLimitExactlyWhere | DNFGameCapture/CloudMatchClient.cpp:2698-2755 | From a reachable state within the limit of 64 commands a step leads over it if and only if it puts an unsent command of the present configuration, not a remembered join, back to 64 others. |
| CloudTheorems.CreditIsRefusedOnlyWhenFull | DNFGameCapture/CloudMatchClient.cpp:1560-1576 | A credit is refused exactly when 96 results are queued or promised; the exit with nothing left to drop is never taken. |
| CloudTheorems.ReachableQueue | DNFGameCapture/CloudMatchClient.cpp:1891-1926 | What is queued is of the current generation, in arrival order behind all that was dispatched, at most one notification for each type and key with the newest payload, and the protected counter is exact. |
| CloudInbound.DropIsWithout | DNFGameCapture/CloudMatchClient.cpp:1549-1558 | What is dropped is the oldest notification, and the rest keeps its order. |
| CloudInbound.NotificationStaysHealthy | DNFGameCapture/CloudMatchClient.cpp:1893-1926 | A notification never takes a place that a promised result needs. |
| CloudLosses.StalePassStrands | DNFGameCapture/CloudMatchClient.cpp:2704-2722 | A run in which a command accepted after a reconfiguration is discarded by a pass of the earlier one, and its credit stays taken. |
| CloudLosses.HeldSlotStrands | DNFGameCapture/CloudMatchClient.cpp:2130-2137 | A run without reconfiguration or stop in which a registration finds the cancel slot held and its operation is never answered. |
| CloudLosses.QueueOverLimit | DNFGameCapture/CloudMatchClient.cpp:2698-2755 | A run that ends with one command more than the queue limit, after an unsent command went back to a refilled queue. |
| CloudRemembered.ConfirmedIsHighest | DNFGameCapture/CloudMatchClient.cpp:2913-2939 | The name kept is the one confirmed with the highest sequence, or the name of the join if none was. |
| CloudRemembered.ConfirmedIgnoresOrder | DNFGameCapture/CloudMatchClient.cpp:2913-2939 | The order in which given confirmations arrive does not matter. |
| CloudSequences.RememberedName | DNFGameCapture/CloudMatchClient.cpp:2913-2939 | Over all runs the remembered name is that of the rename with the highest sequence among those confirmed since the last join was accepted, or the name of the join; these confirmations in another order would leave the same. Which renames these can be is the subject of CloudJoins. |
| CloudJoins.JoinedNameStands | DNFGameCapture/CloudMatchClient.cpp:1812-1824 | If at an accepted join no earlier rename is queued, being sent, unacknowledged or about to be stored, then in every run from there only renames issued after the join are ever confirmed. |
| CloudJoins.JoinSettlesName | DNFGameCapture/CloudMatchClient.cpp:1812-1824 | While acknowledgement numbers for a full queue remain, a rename issued before an accepted join can override the joined name, in some run of the worker alone, if and only if at the join one is queued, being sent, unacknowledged or about to be stored. |
| CloudJoins.OverriddenName | DNFGameCapture/CloudMatchClient.cpp:2913-2939 | The sequence kept with the name tells which it is: the name comes from a rename issued before the join if and only if the sequence is not zero and below the join's. |
| CloudJoins.LateConfirmationWins | DNFGameCapture/CloudMatchClient.cpp:2913-2939 | Two runs with the same operations and the same results that leave different names: a rename acknowledged after a join overrides the joined name, and acknowledged before it does not. |
| CloudSequences.JoinInFlightIsPending | DNFGameCapture/CloudMatchClient.cpp:2757-2816 | Over all runs a join marked in flight has an acknowledgement pending, unless the client is being stopped. |
| CloudJoins.JoinLeftInFlight | DNFGameCapture/CloudMatchClient.cpp:1603-1608 | Why stopping is excepted: a run after which a join is marked in flight and no acknowledgement is pending, because clearing the table while stopping does not settle it. |
| CloudSequences.RememberedJoinIsAlone | DNFGameCapture/CloudMatchClient.cpp:2792-2816 | A remembered join is prepared only when no join is queued or unacknowledged, with the remembered room and name, and no other join is unacknowledged until it has been sent. When a room is remembered is the subject of CloudRooms. |
| CloudRooms.RoomIsLastJoined | DNFGameCapture/CloudMatchClient.cpp:403-415 | In every run the remembered room is that of the last accepted join, unless an accepted leave, a new configuration or a stop came after it. |
| CloudRooms.LeavingForgets | DNFGameCapture/CloudMatchClient.cpp:403-415 | From an accepted leave on, in every run until a room is joined again, no room is remembered, no join is ever prepared, and the worker takes up no remembered one. |
| CloudRooms.PreparedExactly | DNFGameCapture/CloudMatchClient.cpp:2792-2816 | In every reachable state a remembered join is prepared if and only if one is wanted, none is in flight, queued or unacknowledged, and there is room for its acknowledgement and its result. |
| CloudRooms.ConnectionWantsRoom | DNFGameCapture/CloudMatchClient.cpp:2771-2780 | A new connection wants a join if and only if a room is remembered. |
| CloudRooms.BrokenJoinIsWanted | DNFGameCapture/CloudMatchClient.cpp:2782-2790 | A connection that breaks while a join is in flight leaves it wanted, and no longer in flight. |
| CloudRooms.AnsweredJoinIsSettled | DNFGameCapture/CloudMatchClient.cpp:2782-2790 | A join that the server has answered is wanted no more. |
| CloudRooms.ExpiredJoinIsSettled | DNFGameCapture/CloudMatchClient.cpp:2782-2790 | Nor is one that was not answered in time. |
| CloudRooms.SentJoinIsInFlight | DNFGameCapture/CloudMatchClient.cpp:2792-2803 | A wanted join that has been sent is in flight. |
| CloudDelivery.SentInOrder | DNFGameCapture/CloudMatchClient.cpp:2705-2728 | In every reachable state the queue is in the order in which its commands were accepted, and the command being sent was accepted before all that wait, whatever was returned, cancelled or expired. |
| CloudDelivery.AcceptedExactly | DNFGameCapture/CloudMatchClient.cpp:1778-1812 | In every reachable state a command is accepted if and only if the client is not stopping, its configuration is in force and names a server, there are credentials or it registers, fewer than 64 commands wait and fewer than 96 results are queued or promised. |
| CloudDelivery.SnapshotAcceptedExactly | DNFGameCapture/CloudMatchClient.cpp:417-475 | A snapshot is accepted if and only if its configuration is in force with credentials and there is room for its result; it then is the one that waits, and the one it replaces is owed a result. |
| CloudDelivery.UnsentSnapshotReturns | DNFGameCapture/CloudMatchClient.cpp:2739-2755 | A snapshot that could not be sent waits again if none came meanwhile, and else is owed a result. |
| CloudDelivery.CancelRemovesExactly | DNFGameCapture/CloudMatchClient.cpp:596-630 | Cancelling an ID removes exactly the requests with this ID that only read, queued or unacknowledged, and changes nothing else that waits. |
| CloudDelivery.FailedExactly | DNFGameCapture/CloudMatchClient.cpp:3123-3146 | When a connection is lost exactly the queued requests that only read are taken out, each owed its result, and all other commands wait on. |
| CloudDelivery.RegistrationsAreTaken | DNFGameCapture/CloudMatchClient.cpp:2038-2051 | A queued registration of the configuration is taken by its own call, and none is sent as a command. |
| CloudDelivery.EarliestRegistration | DNFGameCapture/CloudMatchClient.cpp:2038-2051 | The registration taken is the first of its configuration, and the other commands stay in order. |
| CloudDelivery.NotificationArrives | DNFGameCapture/CloudMatchClient.cpp:1878-1923 | In every reachable state a current notification that is not empty and not too large is in the queue afterwards, with its content. |
| CloudDelivery.RoomLosesNothing | DNFGameCapture/CloudMatchClient.cpp:1560-1576 | While there is room nothing queued is dropped, for a notification or for a credit. |
| CloudDelivery.TooLongIsReplaced | DNFGameCapture/CloudMatchClient.cpp:1942-1957 | A message that is empty or longer than 131072 is not queued; a result so long is replaced by a short one of its type. |
| CloudDelivery.LimitsHold | DNFGameCapture/CloudMatchClient.cpp:1560-1576 | In every reachable state at most 96 results are queued or promised, 128 messages queued or promised a place, 64 acknowledgements awaited and 65 commands queued. |
| CloudDelivery.RenameTakenExactly | DNFGameCapture/CloudMatchClient.cpp:2913-2939 | A confirmed rename is taken if and only if it names something of at most 512 bytes, is of the present configuration and comes after the one that the name is from. |
| CloudOrders.OrdersAreKept | DNFGameCapture/CloudMatchClient.cpp:1778-1812 | In every run whatever waits, is being sent or is unacknowledged is just what was asked for under its ticket, every result in hand answers that operation, and only renames are confirmed as such. |
| CloudOrders.ResultAnswersOrder | DNFGameCapture/CloudMatchClient.cpp:1129-1151 | The result queued for an operation is of the type that answers it. |
| CloudOrders.ResultAnswers | DNFGameCapture/CloudMatchClient.cpp:1129-1151 | The result type of each operation, and which messages are results or coalesce. |
| CloudOrders.AckWaits | DNFGameCapture/CloudMatchClient.cpp:32-33 | An acknowledgement is given up exactly eight seconds after its command was sent, or later. |
| CloudOrders.RequestWaits | DNFGameCapture/CloudMatchClient.cpp:1804-1806 | Of the queued commands exactly the transient requests expire, eight seconds after they were accepted or later. |
| CancelableSlot.TokenMoves | DNFGameCapture/CloudMatchClient.cpp:1631-1706 | No step of publisher, receiver or canceller creates or destroys the right to close a handle. |
| CancelableSlot.ClosedExactlyOnce | DNFGameCapture/CloudMatchClient.cpp:1631-1706 | Under every interleaving a handle is closed at most once, and exactly once as soon as its owner has let go and no canceller holds it. |
| CancelableSlot.SlotBelongsToScope | DNFGameCapture/CloudMatchClient.cpp:1672-1706 | A handle is in the slot only while its scope lasts. |
| CancelableSlot.SweptCallsAreCancelled | DNFGameCapture/CloudMatchClient.cpp:1637-1663 | After the generation is raised and the slot exchanged, no call published under an earlier generation stays out of a canceller's reach; the same for a scope's own flag. |
| IdentityRedirects.ReadMappings | DNFGameCapture/PlayerLibraryDatabase.cpp:926-934 | The mappings are accepted exactly when all are valid and no source is repeated or supplied, and then they are the map. |
| IdentityRedirects.Walk | DNFGameCapture/PlayerLibraryDatabase.cpp:936-941 | Following a chain ends at its end for every identity on the path, and fails exactly when the chain never ends. |
| IdentityRedirects.Compress | DNFGameCapture/PlayerLibraryDatabase.cpp:943-943 | Compressing a path changes no chain's end. |
| IdentityRedirects.Resolve | DNFGameCapture/PlayerLibraryDatabase.cpp:935-944 | The whole loop fails exactly when some chain is cyclic or ends outside the supplied entities; otherwise every source points at the end of the chain it had in the payload. |
| IdentityRedirects.CanonicalIsFinal | DNFGameCapture/PlayerLibraryDatabase.cpp:946-946 | The canonical identity is the end of the chain, and looking it up again changes nothing. |
| LibraryMerging.Merge | DNFGameCapture/PlayerLibraryDatabase.cpp:1210-1244 | Refused exactly for fewer than two names or an unknown one; otherwise the names are completed to whole entities, sorted, and become one entity with all their IDs and a group under the ID of the names, and each constituent is saved once; nothing changes exactly if one group already holds the names of one entity. |
| LibraryCommands.MergePlaces | DNFGameCapture/PlayerLibraryDatabase.cpp:1216-1240 | After a merge every merged name is in one entity and all other names are where they were. |
| LibraryCommands.MergedIsUnion | DNFGameCapture/PlayerLibraryDatabase.cpp:1237-1240 | That entity has exactly the names and game IDs of those it replaces, the lowest of their IDs, and the cloud ID that went with it. |
| LibraryCommands.MergeAndUnmerge | DNFGameCapture/PlayerLibraryDatabase.cpp:1210-1321 | Merging and then splitting all names under the group ID of the merged names: if no other group has this ID, the command finds the group just made, divides the merged entity, is refused only where a game ID has no name to stay with, and gives everything back exactly under the conditions of SplitUndoesMerges. |
| LibraryCommands.MergeKeepsDistinctIds | DNFGameCapture/PlayerLibraryDatabase.cpp:1241-1242 | A merge keeps group IDs distinct if no group left alone has the new one. |
| LibraryCommands.AliasStaysUnknown | DNFGameCapture/PlayerLibraryDatabase.cpp:1225-1232 | A name gained after a merge, of which nothing was saved, is not taken for a constituent by the next merge. |
| LibraryMerge.MergeSavesAsIs | DNFGameCapture/PlayerLibraryDatabase.cpp:1220-1236 | A merge saves of a name, grouped or not, where it comes from if and only if what the replaced groups had saved of it, the later over the earlier, agrees with that. |
| LibraryMerge.MergeRemembers | DNFGameCapture/PlayerLibraryDatabase.cpp:1220-1236 | A merge keeps a library in order and remembers every constituent exactly as it was. |
| LibraryMemory.JoinKeepsKnown | DNFGameCapture/PlayerLibraryDatabase.cpp:546-576 | A union of entities forgets nothing that is known of some names, and keeps their groups fitting, if the groups that have one of the names lie in one entity each and have saved the truth about them; other groups may be as they like. |
| LibraryMemory.MergesRemember | DNFGameCapture/PlayerLibraryDatabase.cpp:1210-1244 | The same for any number of nested merges. |
| LibraryJoin.JoinRemembers | DNFGameCapture/PlayerLibraryDatabase.cpp:546-576 | The same for any union of whole entities, as merging and coalescing make them. |
| LibrarySplitting.Split | DNFGameCapture/PlayerLibraryDatabase.cpp:1246-1321 | The group is looked up by its ID; refused exactly when it is stored and spans several entities, the names do not fit or new IDs have nowhere to go; otherwise the entity is divided as specified, with the ID that each name gets computed from the command's first new ID and the names before it. |
| LibraryCommands.SplitGives | DNFGameCapture/PlayerLibraryDatabase.cpp:1292-1297 | After any split an entity made by it has a game ID if and only if one of its names had it before the merge, or some constituent had it and one of its names was added later, or no constituent had it and it has the name chosen to keep such IDs. |
| LibraryCommands.AliasInherits | DNFGameCapture/PlayerLibraryDatabase.cpp:1291-1293 | A name added after the merge comes with every game ID that a constituent had. |
| LibraryCommands.ExtraGoesWithKeep | DNFGameCapture/PlayerLibraryDatabase.cpp:1295-1298 | A game ID that no constituent had goes to the entity of the name chosen, and to no other. |
| LibraryCommands.RestIsRemembered | DNFGameCapture/PlayerLibraryDatabase.cpp:1304-1319 | The names that stay are one entity under its old ID; what was known of them is still known if there are two of them, and a name that stays alone is what is left. |
| LibraryCommands.RestKeepsCloud | DNFGameCapture/PlayerLibraryDatabase.cpp:1309-1316 | The part that stays has the first cloud ID saved of its names, unless one that was split off has it. |
| LibrarySplit.SplitKeepsNames | DNFGameCapture/PlayerLibraryDatabase.cpp:1274-1319 | After any split, partial or not, every name of the library is in exactly one entity: names outside the divided entity where they were, its own in one of its parts, the selected ones in a restored one. |
| LibrarySplit.SplitKeepsUnique | DNFGameCapture/PlayerLibraryDatabase.cpp:1274-1319 | After any split entity IDs are still distinct and no name is in two entities. |
| LibrarySplit.SplitKeepsGames | DNFGameCapture/PlayerLibraryDatabase.cpp:1270-1319 | After any split every game ID of the divided entity is in one of its parts. |
| LibrarySplit.SourcesComeBackApart | DNFGameCapture/PlayerLibraryDatabase.cpp:1280-1301 | Selected names of different saved origins come back in different entities if and only if no new ID that a name gets equals a saved ID that another one gets back. |
| LibrarySplit.NextAboveSavedIsEnough | DNFGameCapture/PlayerLibraryDatabase.cpp:335-335 | A first new ID above all IDs saved for the selected names is enough for that. |
| LibraryRestoring.SplitRestores | DNFGameCapture/PlayerLibraryDatabase.cpp:1276-1321 | Any split, of some names or all, gives every selected name back the entity it came from if and only if they were saved with IDs that are available, one saved ID stands for one constituent, and no other game ID is kept with them; nothing is supposed of the names that are not selected. |
| LibraryRestoring.NameComesBack | DNFGameCapture/PlayerLibraryDatabase.cpp:1276-1321 | Name by name: any split gives a selected name back just what it was if and only if that was saved, its saved ID is free, and no name that gets this ID too brings another cloud ID or game ID; whatever becomes of the others. |
| LibraryUndoing.SplitAllRestores | DNFGameCapture/PlayerLibraryDatabase.cpp:1276-1321 | Splitting all names of a group of a library in order gives every name an entity made of its own constituent, forgets nothing else and leaves the library in order. |
| LibraryUndoing.SplitUndoesMerges | DNFGameCapture/PlayerLibraryDatabase.cpp:1210-1321 | After any number of nested merges, splitting all names of an entity gives back every constituent, and every entity that was ungrouped before (entity ID, cloud ID, names and game IDs), if and only if it was known where the names come from, constituents are told apart by their IDs, the saved IDs are available, and no unexplained game ID is kept. Of the groups before the merges only those with a name of the entity matter: each lies in one entity and had saved the truth about these names. |
| LibraryUndoing.NameUndoneExactly | DNFGameCapture/PlayerLibraryDatabase.cpp:1210-1321 | Name by name, after any number of nested merges and any split: a selected name of which it was known where it comes from is again just that under the same condition, whatever is known of the others. |
| LibraryUndoing.OrderedMergesAreUndone | DNFGameCapture/PlayerLibraryDatabase.cpp:1210-1321 | When the whole library was in order before the first merge, it always does. |
| LibraryLimits.ThreeRows | DNFGameCapture/PlayerLibraryDatabase.cpp:1021-1045 | Importing three rows into an empty library, before the coalescing pass, gives them the IDs 1, 2 and 3. |
| LibraryLimits.SavedButNotStored | DNFGameCapture/PlayerLibraryDatabase.cpp:563-576 | The pass makes one entity with ID 1 of them, which alone is stored, and saves ID 3; the next command's first new ID may be 2. |
| LibraryLimits.TwoComeBackAsOne | DNFGameCapture/PlayerLibraryDatabase.cpp:1280-1301 | Then splitting off two of the names, however it goes, puts two constituents into one entity. |
| LibraryLimits.SuchASplit | DNFGameCapture/PlayerLibraryDatabase.cpp:1280-1321 | There is such a split. |
| LibraryLimits.TwoOfAllComeBackAsOne | DNFGameCapture/PlayerLibraryDatabase.cpp:1280-1301 | With five rows and a player created in between, even splitting all names does. |
| LibraryLimits.OldSnapshotWins | DNFGameCapture/PlayerLibraryDatabase.cpp:1225-1236 | A library in which the snapshot that a group kept of a name split off from it makes the next merge forget a game ID of that name. |
| LibraryLimits.LaterGroupWins | DNFGameCapture/PlayerLibraryDatabase.cpp:1225-1226 | A library in which such a snapshot, in a later group, overrides the true one in the group that the name is in. |
| LibraryCoalescing.Coalesce | DNFGameCapture/PlayerLibraryDatabase.cpp:522-584 | Joins exactly the candidates of at least two entities that they cover entirely: each becomes one entity with the lowest ID, the first cloud ID and all game IDs, and a group with the candidate's ID and names; groups that share no name with these stay, and every other name stays where it is. What was known of names is remembered, whatever groups of other names are like; and a library whose groups all fit remembers everything, whatever game IDs its entities have got since. |
| LibraryMeaning.CoveredAreJoined | DNFGameCapture/PlayerLibraryDatabase.cpp:533-575 | A candidate whose names belong to several entities, and to these no other names, becomes one entity: its names, all their game IDs, the lowest of their IDs, and the cloud ID of the lowest that has one. |
| LibraryMeaning.OthersAreLeft | DNFGameCapture/PlayerLibraryDatabase.cpp:533-545 | All other names stay where they are. |
| LibrarySyncing.Synchronize | DNFGameCapture/PlayerLibraryDatabase.cpp:253-269 | Every managed group gets, after its own names, exactly the other names of the entities that have one of them; other groups and all entities stay as they are. |
| LibrarySyncing.SyncedExactly | DNFGameCapture/PlayerLibraryDatabase.cpp:257-267 | The groups that take up names are all but those found automatically that have saved no entity, which stay as they are; the names taken up are those of the entities with one of the group's names. |
| LibrarySyncing.SyncedIsWhole | DNFGameCapture/PlayerLibraryDatabase.cpp:253-269 | A managed group then has all names of an entity or none. |
| LibrarySyncing.SyncedHome | DNFGameCapture/PlayerLibraryDatabase.cpp:253-269 | Where a name then comes from: what the one group of its entity has saved of it, and nothing if that saved nothing, as of a name gained since; a name of an entity without group comes from that entity. |
| LibrarySyncing.SyncedOnce | DNFGameCapture/PlayerLibraryDatabase.cpp:253-269 | Doing it again changes nothing. |
| LibrarySyncing.SyncedKeeps | DNFGameCapture/PlayerLibraryDatabase.cpp:253-269 | In a library whose groups fit nothing that is known changes, and they still fit. |
| LibraryImport.Matches | DNFGameCapture/PlayerLibraryDatabase.cpp:985-990 | The matches of a row are exactly the entities with its cloud ID or one of its names. |
| LibraryImport.ImportRow | DNFGameCapture/PlayerLibraryDatabase.cpp:1021-1045 | One row leaves all other entities alone, gives its game IDs to every match and its cloud ID to a single match without one, puts its new names there or in one entity more, and keeps both indexes. |
| LibraryMeaning.RowGives | DNFGameCapture/PlayerLibraryDatabase.cpp:1030-1035 | Every entity with the row's cloud ID or one of its names has its own game IDs and the row's, and no others; it keeps its cloud ID unless it has none and is the only match, which takes the row's; all other entities stay as they are. |
| LibraryMeaning.NewNamesJoin | DNFGameCapture/PlayerLibraryDatabase.cpp:1036-1041 | A new name of the row goes to its only match. |
| LibraryMeaning.NewNamesStand | DNFGameCapture/PlayerLibraryDatabase.cpp:1042-1042 | With several matches it goes to a new entity without a cloud ID. |
| LibraryMeaning.UnmatchedRowIsNew | DNFGameCapture/PlayerLibraryDatabase.cpp:1024-1027 | Without a match the row becomes an entity. |
| LibraryImport.StagesInventNoId | DNFGameCapture/PlayerLibraryDatabase.cpp:1021-1045 | No game ID is in an entity after the rows that was neither in the library nor in a row. |
| LibraryImport.Import | DNFGameCapture/PlayerLibraryDatabase.cpp:1021-1082 | Row after row is added, the groups are brought up to date, the result is coalesced, and the cloud IDs of rows that met several entities are attached; the import is refused if and only if these clash. The names are those there were and those of the rows, each in one entity, no name and no ID it had is gone, every row's names have all the row's IDs, and the coalescing forgets nothing that was known before it. |
| LibraryDeferred.Attach | DNFGameCapture/PlayerLibraryDatabase.cpp:1052-1082 | Refused if and only if a row whose names are one entity now has no saved constituent to go to, a constituent gets two different IDs, or it has another one saved; otherwise an entity without a cloud ID gets that of the first such row, each such row's ID is saved with every name of the constituent of its least name, and nothing else changes. |
| LibraryDeferred.FirstRowGives | DNFGameCapture/PlayerLibraryDatabase.cpp:1059-1066 | An entity without a cloud ID gets that of the first waiting row that is all in it, and one with an ID keeps it. |
| LibraryDeferred.LeastIsLeast | DNFGameCapture/PlayerLibraryDatabase.cpp:1060-1060 | The name that stands for a row is its least one in the order of texts. |
| LibraryDeferred.AttachedHome | DNFGameCapture/PlayerLibraryDatabase.cpp:1059-1082 | Every name keeps its constituent with its entity ID and game IDs; a cloud ID is added at most and never replaced. |
| LibraryImport.AmbiguousIdIsKept | DNFGameCapture/PlayerLibraryDatabase.cpp:1029-1082 | The new cloud ID of a row that met several entities is not lost if these are one entity after the automatic pass: the entity has a cloud ID, and the row's own is that of the constituent from which its least name comes, for a later split. |
| LibraryPlanning.Plan | DNFGameCapture/PlayerLibraryDatabase.cpp:991-1018 | The two passes reject exactly the rows whose cloud ID meets an entity with another owner, or claims one that another row claims under another cloud ID, each with its reason; without leave to skip, any such row refuses the payload; the others are accepted in their order. |
| LibraryPlanning.AcceptedAgree | DNFGameCapture/PlayerLibraryDatabase.cpp:1011-1018 | Rows that were accepted conflict neither with the library nor with each other. |
| LibraryPlanning.MatchesAsPlanned | DNFGameCapture/PlayerLibraryDatabase.cpp:985-990 | When its turn comes, a row matches exactly the entities it matched when the import was planned. |
| LibraryPlanning.CloudIdsComeFromRows | DNFGameCapture/PlayerLibraryDatabase.cpp:1028-1035 | Over the whole import an entity's cloud ID changes only from none, and only to that of an accepted row that matches it alone. |
| LibraryPlanning.CloudIdLands | DNFGameCapture/PlayerLibraryDatabase.cpp:1028-1035 | Every accepted row that matches one entity, which has no owner yet, gives it its cloud ID, and it stays. |
| LibraryPlanning.RejectedRowRejects | DNFGameCapture/PlayerLibraryDatabase.cpp:997-1010 | A row that is rejected for one of its matches can cause the rejection of another row that alone would be accepted. |
| LibraryPlanning.RejectedByRejected | DNFGameCapture/PlayerLibraryDatabase.cpp:997-1010 | A row that no other owner blocks is rejected, but would be accepted in the payload without the blocked rows, if and only if it has rivals and all of them are blocked. |
| LibraryPlanning.ImportPayload | DNFGameCapture/PlayerLibraryDatabase.cpp:982-1082 | A payload with a conflict changes nothing without leave to skip; a payload of which every row is skipped changes nothing and runs no automatic pass; otherwise the rows accepted are imported, which only a clash of cloud IDs that waited for the automatic pass refuses, and nothing the library had is gone. |
| LibraryComponents.FindRoot | DNFGameCapture/PlayerLibraryDatabase.cpp:814-814 | Following the parent links ends, at the root of the name. |
| LibraryComponents.JoinList | DNFGameCapture/PlayerLibraryDatabase.cpp:815-818 | Joining a list keeps the links a forest whose roots tell exactly which names the lists so far connect; names the library lacks are skipped. |
| LibraryComponents.SameRootMeansConnected | DNFGameCapture/PlayerLibraryDatabase.cpp:812-818 | Two names have one root if and only if a chain of names, each with the next in some list, leads from one to the other. |
| LibraryComponents.Components | DNFGameCapture/PlayerLibraryDatabase.cpp:812-834 | The components are the classes of connected names: every name in exactly one, in the order of the names. |
| Utf8.IsValid | DNFGameCapture/CloudMatchProtocol.cpp:38-78 | Accepts exactly the concatenations of encodings of Unicode scalar values (section 4 of RFC 3629). |
| Utf8.DecodeText | DNFGameCapture/PlayerLibraryModel.cpp:52-60 | Valid bytes have a text, and it encodes to them; invalid ones have none. |
| Utf8.EncodingIsInjective | DNFGameCapture/PlayerLibraryModel.cpp:43-51 | Two texts with one encoding are one text. |
| WebSocketText.TextAssembler.Add | DNFGameCapture/CloudMatchProtocol.cpp:383-415 | The buffer and the answer are those of the assembly specification, and the subtraction in the size check cannot underflow. |
| WebSocketText.MessageIsItsFragments | DNFGameCapture/CloudMatchProtocol.cpp:383-415 | Over any run of buffers a message comes out exactly when a text message ends and the fragments since the last reset are valid UTF-8 within the limit, and it is those fragments (section 5.4 of RFC 6455). |
| WebSocketText.HeldIsBounded | DNFGameCapture/CloudMatchProtocol.cpp:392-398 | Never more than 131072 bytes are held. |
| WebSocketText.ResetForgets | DNFGameCapture/CloudMatchProtocol.cpp:417-420 | After a message or a rejection nothing before it has influence. |
| LanTeamSync.HandedOnInOrder | DNFGameCapture/KeyMappingLanService.cpp:1279-1289 | Between two subscribe messages the client hands on pushes with strictly increasing revisions, each with content at least as new as its label. |
| LanTeamSync.HandsOnItsOwn | DNFGameCapture/KeyMappingLanService.cpp:1279-1289 | In every run all that was handed on since the last subscribe message was pushed for the subscription that message asked for, whatever older pushes were still under way. |
| LanTeamSync.SettledPushIsCurrent | DNFGameCapture/KeyMappingLanService.cpp:980-1008 | When the server has settled, its last push carries the present snapshot. |
| LanTeamSync.TwoRoundsSettle | DNFGameCapture/KeyMappingLanService.cpp:981-1007 | Once edits have stopped, in every run with any rounds and other steps in between and after, the server has settled from the first round on that is the debounce after another, at once or with the push it then decides on, and stays so. |
| LanTeamSync.ClientConverges | DNFGameCapture/KeyMappingLanService.cpp:1147-1169 | When the server has settled, nothing is on its way and the subscription stands, the last push handed on is the present snapshot. |
| LanTeamSync.EditsArrive | DNFGameCapture/KeyMappingLanService.cpp:1147-1169 | So in every such run, once nothing is on its way under the subscription that stands, the last push the client has handed on is the present snapshot. |
| LanTeamSync.AcceptingStartsAfresh | DNFGameCapture/KeyMappingLanService.cpp:874-879 | A subscribe message, enabling or not, makes the subscription its own with nothing pushed yet. |
| LanTeamSync.FirstPushAtOnce | DNFGameCapture/KeyMappingLanService.cpp:981-987 | The first round after an enabling subscribe message decides the first push at once, if and only if there is a revision. |
| LanTeamSync.NothingBeforeDebounce | DNFGameCapture/KeyMappingLanService.cpp:981-987 | After the first push of a subscription, from a round that notes a new revision, no run whose rounds all come less than 200 ms later decides on a push or sends one, whatever is edited meanwhile. |
| LanTeamSync.EditsDelay | DNFGameCapture/KeyMappingLanService.cpp:981-987 | An edit noted while the server waits makes it wait another 200 ms. |
| PlayerIds.TrimCuts | DNFGameCapture/PlayerLibraryModel.cpp:27-31 | Trimming cuts off white space at both ends, and all of it. |
| PlayerIds.KeyIsInjective | DNFGameCapture/PlayerLibraryModel.cpp:32-42 | For text without U+001F two keys are equal exactly when name and profession are (a text without a name being compared whole). |
| LegacyLines.KeyOfWritten | DNFGameCapture/PlayerLibraryModel.cpp:32-42 | A name and a profession written with either sharp, and with white space anywhere around them, have one key. |
| PlayerIds.ControlTextsCollide | DNFGameCapture/PlayerLibraryModel.cpp:41-41 | With that character two different players can share a key. |
| PlayerIds.ParseIds | DNFGameCapture/PlayerLibraryModel.cpp:61-70 | The scanning loop returns the longest runs of characters that are not delimiters. |
| PlayerIds.TokensLoseNothing | DNFGameCapture/PlayerLibraryModel.cpp:61-70 | Reading a list loses nothing but delimiters and keeps the order. |
| LegacyLines.IdsAreSeparated | DNFGameCapture/PlayerLibraryModel.cpp:61-70 | Identifiers are cut by round and wide brackets and by spaces, tabs and line ends, and by nothing else. |
| PlayerIds.FormatIds | DNFGameCapture/PlayerLibraryModel.cpp:71-77 | The loop writes the identifiers it keeps, each in brackets. |
| LegacyLines.WrittenId | DNFGameCapture/PlayerLibraryModel.cpp:71-77 | Each identifier is written in round brackets. |
| PlayerIds.KeptAreChosen | DNFGameCapture/PlayerLibraryModel.cpp:74-75 | Those kept stand at exactly the positions of an identifier that is not blank and the first of its key, in order and trimmed. |
| PlayerIds.ReadingUndoesWriting | DNFGameCapture/PlayerLibraryModel.cpp:61-77 | Reading a written list returns it if and only if its identifiers are not empty and hold no delimiter. |
| LegacyText.ParseLegacy | DNFGameCapture/PlayerLibraryModel.cpp:78-101 | The line loop computes the specified reading, with its two refusals. |
| LegacyLines.SkippedExactly | DNFGameCapture/PlayerLibraryModel.cpp:85-92 | A line is skipped if and only if nothing is visible on it, or it has no equals sign and begins with a semicolon or a bracket; without an equals sign and beginning otherwise it is an error. |
| LegacyLines.LineMeans | DNFGameCapture/PlayerLibraryModel.cpp:85-96 | A name, an equals sign and a list, with white space around, are that name with the identifiers of the list; without a name they are an error. |
| LegacyLines.LinesAreText | DNFGameCapture/PlayerLibraryModel.cpp:84-84 | Put together again the lines are the text, but for a line feed at its end. |
| LegacyLines.AppendedHasAll | DNFGameCapture/PlayerLibraryModel.cpp:96-98 | What a further line of a name adds stands behind what there was, and nothing is lost. |
| LegacyText.SerializeLegacy | DNFGameCapture/PlayerLibraryModel.cpp:102-106 | The loop computes the specified text. |
| LegacyLines.WrittenEntry | DNFGameCapture/PlayerLibraryModel.cpp:102-106 | Each entry is written as its name, an equals sign, its identifiers and a carriage return with a line feed. |
| LegacyText.PutKeepsOrder | DNFGameCapture/PlayerLibraryModel.cpp:96-98 | The map stays ordered by name. |
| LegacyText.IdsOfPut | DNFGameCapture/PlayerLibraryModel.cpp:96-98 | Assigning a name changes its identifiers and those of no other name. |
| LegacyRoundTrip.ReadingGathers | DNFGameCapture/PlayerLibraryModel.cpp:84-98 | A text is refused exactly for a bad line; otherwise it has the names its lines mention, and a name has the identifiers of all its lines, each at its first place. |
| LegacyRoundTrip.ParsedIsSound | DNFGameCapture/PlayerLibraryModel.cpp:84-98 | Whatever text is read, names can stand in a line, identifiers hold no delimiter and none is there twice. |
| LegacyRoundTrip.EntryReadsBack | DNFGameCapture/PlayerLibraryModel.cpp:84-104 | A written line reads as its name and the identifiers kept. |
| LegacyRoundTrip.RoundTrip | DNFGameCapture/PlayerLibraryModel.cpp:78-106 | Reading a written library returns it with one identifier for each key if and only if every name is trimmed, not empty and free of equals signs and line breaks, no kept identifier holds a delimiter, and the first name does not begin with a byte order mark. |
| LegacyRoundTrip.MarkIsLost | DNFGameCapture/PlayerLibraryModel.cpp:80-80 | A first name that begins with a byte order mark does not come back. |
| LegacyRoundTrip.ReadFileSettles | DNFGameCapture/PlayerLibraryModel.cpp:78-106 | What is written for any text that was read, without such a mark, reads back as one library from then on. |
| LicenseLease.Serialize | DNFGameCapture/LicenseLease.cpp:131-153 | Succeeds exactly for texts and a whole within the limits, and then returns the encoding in the present version. |
| LicenseLease.Layout | DNFGameCapture/LicenseLease.cpp:131-153 | Which bytes hold which text: from byte 40 to the end stand licence key, machine, server, from version 2 on session token, and from version 3 on environment and manifest, each behind the length of its UTF-8 form. |
| LicenseLease.HeaderLayout | DNFGameCapture/LicenseLease.cpp:135-140 | The first forty bytes hold the mark, the version and the four times, lowest byte first. |
| LicenseLease.WritableExactly | DNFGameCapture/LicenseLease.cpp:141-149 | A lease can be written if and only if no text is longer than 16384 bytes and the whole no longer than 65536. |
| LicenseLease.Deserialize | DNFGameCapture/LicenseLease.cpp:155-181 | Returns a record if and only if the bytes, to the last one, are an encoding of it in version 1, 2 or 3 within the limits. |
| LicenseLease.RoundTrip | DNFGameCapture/LicenseLease.cpp:131-181 | What is written for any lease encodes that lease and nothing else, for all signed 64-bit values. |
| LicenseLease.PrefixIsRefused | DNFGameCapture/LicenseLease.cpp:155-181 | No strict prefix of an encoding is an encoding, in any version. |
| LicenseLease.DecodedIsUnique | DNFGameCapture/LicenseLease.cpp:155-181 | Bytes encode at most one lease in one version, so an accepted version 3 buffer is written back to the same bytes. |
| LicenseLease.EarlierVersionsAreShorter | DNFGameCapture/LicenseLease.cpp:173-175 | Bytes of version 1 or 2 give a lease whose later fields are empty. |
| LicenseLease.LowOfNumber | DNFGameCapture/LicenseLease.cpp:68-102 | Reading a number from bytes and writing it gives the bytes back. |
| IdentityMatcher.AcceptedIsAhead | DNFGameCapture/TemporalIdentityMatcher.hpp:710-787 | Whatever branch accepts, the candidate is the best and at least 8 ahead of every other. |
| IdentityMatcher.SymbolsNeedTheirJob | DNFGameCapture/TemporalIdentityMatcher.hpp:722-739 | A name of symbols is accepted exactly with its job and a score of 58 with a lead of 25, or of 78 with a lead of 18 in its area. |
| IdentityMatcher.FewFramesNeedAnId | DNFGameCapture/TemporalIdentityMatcher.hpp:741-756 | With too few frames exactly a strong ID with a lead of 18 is accepted, or a weaker one of a short name in its context with a lead of 10. |
| IdentityMatcher.EnoughFrames | DNFGameCapture/TemporalIdentityMatcher.hpp:758-787 | With frames enough the thresholds of score, ID and lead are those of short, middle and long names. |
| IdentityMatcher.NamelessIsRefused | DNFGameCapture/TemporalIdentityMatcher.hpp:711-714 | Nothing nameless is accepted, and nothing from an empty list. |
| IdentityMatcher.NamedAreScored | DNFGameCapture/TemporalIdentityMatcher.hpp:380-394 | Every candidate with a name is scored, as often as it is there, and no other. |
| IdentityMatcher.VerdictIgnoresOrder | DNFGameCapture/TemporalIdentityMatcher.hpp:394-404 | Two rankings of the same scores, whatever the unstable sort did with ties, give the same verdict and candidate. |
| IdentityMatcher.MatchIgnoresOrder | DNFGameCapture/TemporalIdentityMatcher.hpp:394-404 | The same candidates in any list order give the same verdict and candidate. |
| IdentityMatcher.MatchPanel | DNFGameCapture/TemporalIdentityMatcher.hpp:380-404 | Scores, ranks and decides as the specification says. |
| LongestCommonSubsequence.LcsLen | DNFGameCapture/TemporalIdentityMatcher.hpp:964-976 | The table computes the length of a longest common subsequence. |
| LongestCommonSubsequence.LcsIsAttained | DNFGameCapture/TemporalIdentityMatcher.hpp:968-975 | There is a common subsequence of the computed length. |
| LongestCommonSubsequence.LcsIsLongest | DNFGameCapture/TemporalIdentityMatcher.hpp:968-975 | No common subsequence is longer. |

## Left out

- Network, registry, file, SQLite, JSON and Windows API calls: their outcomes are parameters or choices of a step.
- Hash functions: the group ID is an arbitrary function of the sorted names, fingerprints and exceptions to automatic splits are not part of the model.
- std::sort: modelled by `Ordering.SortBy` under the same comparison; where the comparison leaves ties, the properties hold for every arrangement of them.
- UTF-16: texts are sequences of characters or scalar values, and the conversion to UTF-8 is a bijection on valid text.
- Integer widths: sizes, revisions, sequence and subscription numbers do not wrap around.
- CloudJoins.JoinSettlesName: that a rename still open can override the join is shown while acknowledgement numbers for a full queue remain, because a client that has used up its 64-bit numbers sends nothing more; that one not open cannot is shown always (JoinedNameStands).
- Memory exhaustion: no step fails for lack of memory, and the short fallback message that replaces an oversized result always serialises.
- Secure wiping, logging, status texts and status snapshots.
- An absent callback of the plain identity analysis, which makes it return nothing.
- IdentityPairwise.Analyze: says something only when equivalence is equality of non-empty keys, because other relations need not be transitive and the indexed analysis has no counterpart for them.
- Argument checks of the cloud client (lengths of names and IDs) before an operation reaches the queue.
- Liveness of the cloud client: nothing says that a waiting operation gets its result eventually, as that rests on the network and on deadlines.
- Reconnecting: back-off delays, pings and the handshake; a connection attempt is the steps it makes.
- The contents of server events: an event that is not an acknowledgement is a notification with any type, key and text.
- CloudTheorems.LostExactlyWhere: speaks of steps within one configuration; what a reconfiguration or a stop discards is recorded as superseded and not as lost.
- CancelableSlot: handle values are never reused while a stale copy of them is around; reuse by the operating system is not modelled.
- Interning identifiers in the library: game IDs are numbers that mean the same before and after.
- Limits on the sizes of a library and of a payload (an import that leads over the limit on names is refused), and the validity of texts and cloud IDs.
- The exceptions a split records against merging again, and the source that a new group is marked with.
- LibraryRestoring.SplitRestores: groups written by earlier versions, which saved no entity IDs, are no case of their own: a name of which nothing or no ID was saved does not come back.
- LibraryUndoing.SplitUndoesMerges: supposes only manual merges before the split, and of the groups with a name of the split entity that each lay in one entity and held no stale snapshot of these names; when a stale one makes a merge forget is LibraryMerge.MergeSavesAsIs, and that coalescing remembers as merging does is LibraryCoalescing.Coalesce. An entity with a name of which nothing is known is not given back as a whole; its other names are the subject of LibraryUndoing.NameUndoneExactly.
- Splitting a group that exists only in the derived state and not in the stored metadata, which changes no entity.
- LibraryMerging.Merge: commands bring the groups up to date first (LibrarySyncing.Synchronize), and so does storing a library; this is proved on its own, with what it changes, and not as one step with merging and splitting.
- LibraryPlanning.ImportPayload: building the indexes with redirects and saved cloud IDs happens before it, and a payload is refused for its contents before it.
- LibraryImport.Import: the candidates of the coalescing pass are those of any analysis that names each name once; which groups were made automatically is given by their IDs; a library whose metadata has no list of groups is one with an empty list.
- Renaming, deleting, creating and editing single entities, which add only easy cases.
- Replacing a library from a legacy file: only the components formed by parent links are modelled, not which lists are joined, the entity each component becomes, or the migrations.
- The views of a snapshot (lookup by name and by identifier, preferred local names).
- LanTeamSync: only what concerns pushes to one client in the server role; requests, proposals, pairing, heartbeats, and a snapshot too large or not valid to send are left out.
- LanTeamSync.ClientConverges: supposes that the connection lasts; a client that reconnects subscribes anew, which is the initial state again.
- OCR scoring: the score of a candidate is any function of the candidate, so learning, areas and professions are parameters.
- LegacyRoundTrip.RoundTrip: white space is any class that contains neither the equals sign nor the closing bracket.
