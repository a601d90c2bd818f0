# KOneDrive: a verified model of its core state machines

This project models seven parts of KOneDrive, a OneDrive client for KDE, and proves what each
is there for. Run `dafny verify dfyconfig.toml`.

1. **The item rows** (`item_*.dfy`): the table of items with the schema's checks, unique
   indexes and triggers, and every local change of it (make, move, save over, remove, open,
   close, truncate, exchange of two places), in transactions that leave nothing behind when
   they are refused. Every run keeps one tree of bounded depth, every binding with all that
   goes with it, and the stamps of what is unsent; paths and items undo each other, and the
   unsent rows are read page by page, each once.
2. **The transfer pool** (`pool*.dfy`): every lock region is one step. What is held is
   accounted for over every run, nobody waits whom the rules would let go, grants keep their
   bounds and their turns, the size grows and halves as promised, and the trimmed rate meter
   reads as the full log of moves would.
3. **What upload steps remember** (`step_*.dfy`): an address of an upload session is with an
   item or among the cancellations until it is reported ended or cancelled, over every run
   of operations, row changes, row deletions and moves of bindings.
4. **QuickXorHash** (`quickxor*.dfy`): the form with 160 lanes computes the published
   algorithm, however the content is split, and pieces hashed at their offsets combine, in
   any order, to the hash of the whole file.
5. **Download progress jobs** (`progress*.dfy`): five visible jobs, one that sums the rest, and a
   grace for paths that left.
6. **The overlay plugin's directory cache** (`overlay*.dfy`), least recently used out first, and
   **the list of conflicts** (`conflict*.dfy`), whose one diff rebuilds the list in a view.
7. **Reasons** (`reason*.dfy`): reading a stored reason and writing it back.

Each part is a module of values and functions that say what an operation does, modules of
lemmas about them over whole runs, and, where the program changes an object in place, a class
whose methods do so with the program's own loops and branches (`ItemStores.ItemStore`,
`Pool.TransferPool`, `StepStores.StepMemory`, `QuickXorHash.QuickXor`,
`Progress.DownloadProgressController`, `Overlay.OverlayEngine`, `Conflicts.ConflictModel`).
Each method states its new state by the function that specifies it.

Whatever comes from outside is a parameter: the clock, the rows a query finds, the order in
which a hash table or a query without an order gives its entries, the marks and inodes on
disk. The lemmas hold for every such answer.

Where the code and its own words differ, the model follows the code, and a lemma says exactly
when what is promised holds:

- A stamp is said to stay while a row goes on differing. A file saved over one whose synced
  place and content are just its own agrees for a moment within the change, and its stamp is
  given anew; in every other case the stamp stays (`ItemStamps.StampKeptIff`, `ItemStamps.StampMayChange`,
  over whole runs `ItemStamps.RunKeepsStampIff`).
- A throttle that comes within a second after a wait ended is said to belong to the same
  burst. The end of the wait clears the time that says so, and then the pool is halved again
  (`PoolSizing.NoGraceAfterUnblock`).
- The overlay cache is said to watch every root an answer names. Three things break it. A root
  whose own cached answer names a third directory, its mark set but not told yet, can be evicted
  while an answer depends on it (`OverlayRuns.StaleRootIsLost`). A root that is not cached and
  cannot be watched does not come into the cache, and the answer that names it is kept. And when
  a directory was moved away and another put in its place, a root in the new one can be cached
  with a watch of the old; when the move is told that root is forgotten, while the answer of a
  link from elsewhere goes on naming it (`OverlayRuns.LinkIsLeftBehind`, a state that a run
  reaches). These are all the cases when a directory is asked about (`OverlayAsking.AskKeepsIff`)
  and, while there is room, when what was told is read (`OverlayReading.ReadKeepsIff`): the cache
  is promised as much now, and after whichever cached directory is asked about next. Whatever
  went wrong, an overflow of what is told mends it (`OverlayRuns.AnyRunIsRepaired`).
- A mark that is set is said to make the answers below it be worked out again. What is below it
  is told by names: a cached link that leads below it from elsewhere keeps its old answer
  (`OverlayRuns.LinkIsMissed`; these are all the cases, `OverlayMarks.MarksAreReadIff`).
- Every address of an upload session is kept, but one that is given twice can be with an item
  and left to cancel (`StepSessions.GivenTwiceIsInTwoPlaces`, and exactly when,
  `StepSessions.GivenAgainIff` and over whole runs `StepRuns.RunKeepsInOnePlaceIff`).
- What an item waits for is not written back byte for byte for a few strings that the program
  itself does not write (`Reasons.PrintOfParseWaitIff`).

## Model

| member | source | states |
|---|---|---|
| `ItemTree.CanHoldIffTree` | crates/konedrive-tree/src/item_store.rs:414-471 | the walk up, the check that the directory is not below the item, and the count of levels pass exactly when the move leaves the shown rows one tree of bounded depth |
| `ItemTree.ExchangeKeepsTree` | crates/konedrive-tree/src/item_store.rs:652-663 | two items that change places leave one tree of bounded depth when each may be held where the other was |
| `ItemTree.TreeIff` | crates/konedrive-tree/src/item_store.rs:414-429 | rows are one tree of bounded depth exactly when from each shown item there is a way up of at most 131 rows that ends at row 1, which is in nothing |
| `ItemTable.PutKeepsCore` | crates/konedrive-tree/src/schema.rs:182-223 | one row written, with the triggers run, keeps the checks, the unique indexes, one tree, parents that hold the binding they are named for, and stamps exactly on what is unsent, distinct and not above the counter |
| `ItemTable.DeleteKeepsCore` | crates/konedrive-tree/src/schema.rs:195-200 | a row that no row names as its local, OneDrive or synced parent can go and keeps all of it |
| `ItemSchema.WrittenIff` | crates/konedrive-tree/src/item_store/item_row.rs:321-335 | one row is written exactly when there is one, its names are names and every row of the whole table meets the schema with it; it is the row given, but for the stamp and the executable bit, and no other changes |
| `ItemSchema.InsertedIff` | crates/konedrive-tree/src/item_store/item_row.rs:296-319 | the same of a row that is made, under the next id |
| `ItemSchema.DeleteIsAllowedIff` | crates/konedrive-tree/src/schema.rs:195-200 | a row goes exactly when it is not the root's and the rows that stay meet the schema without it |
| `ItemInvariant.TakeOverKeeps` | crates/konedrive-tree/src/item_store/bindings.rs:126-146 | the taking row has the binding, the OneDrive version and everything agreed, the giving row goes, the rules hold, and what the rows say of OneDrive is the same set |
| `ItemInvariant.MoveItemKeeps` | crates/konedrive-tree/src/item_store.rs:541-556 | a move trips no rule of the schema: it is refused or leaves a valid table with the same OneDrive sides and kinds |
| `ItemInvariant.RemoveKeeps` | crates/konedrive-tree/src/item_store.rs:480-500 | a removal keeps every binding; an unbound row that goes is never another row's parent |
| `ItemInvariant.ChangeContentKeeps` | crates/konedrive-tree/src/item_store.rs:598-607 | an open, a close or a truncation keeps the rules and the bindings |
| `ItemRuns.InsertKeeps` | crates/konedrive-tree/src/item_store/item_row.rs:296-319 | a new row at a place that is checked keeps the rules, under an id never given before |
| `ItemRuns.MakeKeeps` | crates/konedrive-tree/src/item_store.rs:522-539 | a make, also over a removed file whose binding it takes, is refused or leaves a valid table with the same OneDrive sides |
| `ItemRuns.SaveOverKeeps` | crates/konedrive-tree/src/item_store.rs:562-588 | a save over another file, on all its branches, is refused or leaves a valid table with the same OneDrive sides |
| `ItemRuns.ExchangeKeeps` | crates/konedrive-tree/src/item_store.rs:652-663 | an exchange, through the name no file can have, is refused or leaves a valid table with the same OneDrive sides |
| `ItemRuns.ApplyChangeKeeps` | crates/konedrive-tree/src/item_store.rs:609-650 | no local change fails as the database's error: it is refused by the code, or leaves a valid table in which nothing of OneDrive is lost or made |
| `ItemRuns.ApplyAllKeeps` | crates/konedrive-tree/src/item_store.rs:673-678 | several changes in one transaction, the same |
| `ItemRuns.StepKeeps` | crates/konedrive-tree/src/item_store.rs:269-288 | a refused operation leaves the table as it was; any other a valid one |
| `ItemRuns.RunKeeps` | crates/konedrive-tree/src/item_store.rs:7-45 | over every run: the rules hold, the set of what the rows say of OneDrive is the same, a kind never changes, an id is never given twice, and a stamp stays, goes, or is given anew from the counter (when it stays, `ItemStamps.RunKeepsStampIff`) |
| `ItemRuns.NewStoreIsValid` | crates/konedrive-tree/src/schema.rs:207-207 | the store as it is made, with the root's row alone, satisfies the rules |
| `ItemRuns.ReachedRowsAreOneTree` | crates/konedrive-tree/src/item_store.rs:7-24 | in every reached state each shown item is in a shown directory, the way up ends at the root within MAX_CHAIN levels, no two share a place, and no two share a binding |
| `ItemRuns.ReachedRowsKeepTheSchema` | crates/konedrive-tree/src/schema.rs:148-181 | in every state a run reaches from a valid table each row, by its own columns, passes the checks of the table: OneDrive's and agreed columns only with a binding, a content exactly where there is a shown file, parents that are directories' rows |
| `ItemRuns.ReachedStampsAreOfDifferences` | crates/konedrive-tree/src/schema.rs:211-223 | in every such state a row has a stamp exactly while its shown place and content are not the agreed ones, and no two have one stamp |
| `ItemFolder.ChangeIsPlain` | crates/konedrive-tree/src/item_store.rs:480-650 | for every table and change, in the terms of a plain folder of entries and a list of bindings alone: what the statements and triggers do to the rows is what the change does to these two, a save takes a binding over exactly when an unbound file is saved over a bound one, and it is refused exactly where the folder does not allow it or the file a make replaces is none |
| `ItemFolder.ExchangeIsPlain` | crates/konedrive-tree/src/item_store.rs:652-663 | the same of an exchange: the two entries have each the other's place, no other entry and no binding changes, and it is refused exactly where either move would leave no tree |
| `ItemFolder.RefusalSaysWhy` | crates/konedrive-tree/src/item_store.rs:480-650 | a change that is refused is refused for the first reason the plain folder has: the item is not there, is the root, is no file, the name is taken or none, the directory is none, is below the item, or the tree would be too deep |
| `ItemFolder.RefusedExchangeSaysWhy` | crates/konedrive-tree/src/item_store.rs:652-663 | the same of an exchange |
| `ItemStamps.StampKeptIff` | crates/konedrive-tree/src/schema.rs:215-223 | a row that differs before and after a change has the same stamp, exactly unless it is saved over a file with whose synced place and content it agrees in between |
| `ItemStamps.ExchangeKeepsStamp` | crates/konedrive-tree/src/item_store.rs:652-663 | an exchange keeps the stamp of every row that differs before and after |
| `ItemStamps.RunKeepsStampIff` | crates/konedrive-tree/src/schema.rs:215-223 | over every run of operations through which a row goes on differing, its stamp at the end is the one it had, if and only if it agreed in between the statements of no change on the way |
| `ItemStamps.StampMayChange` | crates/konedrive-tree/src/item_store.rs:562-588 | a valid table in which a file that goes on differing gets another stamp |
| `ItemPaths.PathLeadsBack` | crates/konedrive-tree/src/item_store.rs:300-315 | the path of a shown item is never refused, and looking its names up from the root finds that item |
| `ItemPaths.PathsAndItemsAreOne` | crates/konedrive-tree/src/item_store.rs:300-315 | a path leads to an item exactly when it is that item's path: no two items have one path |
| `ItemUnsent.ListUnsentIsPage` | crates/konedrive-tree/src/item_store/item_row.rs:496-502 | a page has the unsent rows not left here after a stamp, in the order of their stamps, and is short only when there are no more |
| `ItemUnsent.PageIsTheOne` | crates/konedrive-tree/src/item_store.rs:217-236 | there is only one such page |
| `ItemUnsent.ListedIff` | crates/konedrive-tree/src/item_store/item_row.rs:64-72 | a row is listed exactly when it has a stamp and is bound, or neither its own name is ignored nor that of an unbound directory above it |
| `ItemUnsent.ReadInOrder` | crates/konedrive-tree/src/item_store.rs:217-236 | over all pages of a reading, with changes in between, what is read later has a later stamp |
| `ItemUnsent.EachUnsentReadOnce` | crates/konedrive-tree/src/item_store.rs:217-236 | a row that is listed with one stamp all through a reading is on exactly one of its pages |
| `ItemStores.ItemStore.ListUp` | crates/konedrive-tree/src/item_store.rs:414-429 | the loop up the parents gives the directories above, or is refused as the walk is |
| `ItemStores.ItemStore.FindPath` | crates/konedrive-tree/src/item_store.rs:300-315 | the loop up the parents gives the path |
| `ItemStores.ItemStore.Make` | crates/konedrive-tree/src/item_store.rs:522-539 | the statements of a make, in their order, are the change it stands for |
| `ItemStores.ItemStore.Move` | crates/konedrive-tree/src/item_store.rs:541-556 | the same of a move |
| `ItemStores.ItemStore.SaveOver` | crates/konedrive-tree/src/item_store.rs:562-588 | the same of a save over another file |
| `ItemStores.ItemStore.Remove` | crates/konedrive-tree/src/item_store.rs:590-596 | the same of a removal |
| `ItemStores.ItemStore.ExchangePlaces` | crates/konedrive-tree/src/item_store.rs:652-663 | the same of an exchange |
| `ItemStores.ItemStore.ApplyAll` | crates/konedrive-tree/src/item_store.rs:673-678 | the loop over several changes stops at the first refused |
| `ItemStores.ItemStore.Transact` | crates/konedrive-tree/src/item_store.rs:280-288 | an operation is committed whole, or the table is as it was |
| `PoolRules.HandOutKeepsWaiters` | crates/konedrive-graph/src/pool.rs:463-500 | handing out ends, when nobody is next, and takes nobody out of the waiters |
| `PoolAccounting.StepKeeps` | crates/konedrive-graph/src/pool.rs:288-415 | every arrival, later poll, drop, try, release, pause, change of limits, throttle and end of a wait keeps the accounts, the lines, the bounds of the size, and that nobody is left who is next |
| `PoolAccounting.RunKeeps` | crates/konedrive-graph/src/pool.rs:171-195 | so does every run |
| `PoolAccounting.HeldIsLiveAndUncollected` | crates/konedrive-graph/src/pool.rs:762-813 | in every reachable state what is held of a class is its slots alive and its granted waiters not collected yet |
| `PoolHolders.CountsAreHolders` | crates/konedrive-graph/src/pool.rs:306-322 | what is held in all and of large ones are the numbers of the holders, one by one |
| `PoolArrivals.RunAsTheyCame` | crates/konedrive-graph/src/pool.rs:585-587 | over every run, told from the events alone: each ticket that waits or holds a slot is of the class it came with, and counts as large exactly when it came for a large file that is not one being opened |
| `PoolArrivals.NobodyWaitsInVain` | crates/konedrive-graph/src/pool.rs:463-500 | in every reached state with no wait of a throttle set: whoever came to open a file waits only while two more hold a slot than there are; anybody else only while somebody opens one or waits to, the pool is paused, all slots are held, or, for a large file, as many that came for one hold a slot as may |
| `PoolArrivals.GrantsAreWithinBounds` | crates/konedrive-graph/src/pool.rs:463-500 | over every run, when a slot is handed to a ticket there are at most two holders more than slots if it came to open a file; else at most as many, no pause, and no holder that opens one; and for a large file at most as many of those hold a slot as may |
| `PoolAccounting.ReleaseAccounts` | crates/konedrive-graph/src/pool.rs:448-461 | a slot given back was counted: no count goes below nothing |
| `PoolAccounting.GiveUpAccounts` | crates/konedrive-graph/src/pool.rs:797-813 | the same of a granted future that is dropped |
| `PoolAccounting.FirstIsLeastThatMayGo` | crates/konedrive-graph/src/pool.rs:595-606 | the first of a class is the earliest that the large-stream limit does not hold back, and there is one exactly when there is any |
| `PoolAccounting.NobodyIsNextIff` | crates/konedrive-graph/src/pool.rs:463-500 | nobody is next exactly when opens wait for the size and the reserve, and all other work for an open, the pause or a slot |
| `PoolAccounting.GrantIsWithinBounds` | crates/konedrive-graph/src/pool.rs:463-500 | a grant goes beyond the size for an open alone, within the reserve; to nobody else while an open waits or runs or the pool is paused; and to no large one beyond the limit |
| `PoolFairness.BackgroundAlternates` | crates/konedrive-graph/src/pool.rs:484-498 | over every run, of two background grants in a row the second goes to the other side when both sides could go |
| `PoolFairness.OvertakenOnlyByTheLimit` | crates/konedrive-graph/src/pool.rs:595-606 | over every run, a waiter is overtaken in its class only when it is large and the large limit is full |
| `PoolFairness.GrantsAreNext` | crates/konedrive-graph/src/pool.rs:463-500 | every grant of a run goes to whoever is next by the rules |
| `PoolWaits.ThrottleSetsWait` | crates/konedrive-graph/src/pool.rs:394-415 | the wait is as long as it says, one that is set is never made shorter, and the throttle is remembered for 300 s from its end |
| `PoolWaits.NothingIsGrantedInAWait` | crates/konedrive-graph/src/pool.rs:463-468 | over every run before a wait's end nothing is granted, whatever comes in between |
| `PoolSizing.SizeStaysInBounds` | crates/konedrive-graph/src/pool.rs:288-298 | in every reachable state 1 <= large limit <= ceiling <= 256 and 1 <= size <= ceiling |
| `PoolSizing.NewPoolIs` | crates/konedrive-graph/src/pool.rs:250-279 | a pool as it is made: start and ceiling cut to 1 and 256, a large limit of 4 or the ceiling, nobody waiting |
| `PoolSizing.LimitsAreSet` | crates/konedrive-graph/src/pool.rs:288-298 | new limits hold at once, cut to their bounds; the size is cut to the ceiling and not changed else |
| `PoolSizing.PauseIsSet` | crates/konedrive-graph/src/pool.rs:328-340 | the pool is paused exactly as was said last |
| `PoolSizing.GrowsByOnePerRound` | crates/konedrive-graph/src/pool.rs:622-645 | while a throttle is remembered, with unchanged limits, growing from m to n slots takes exactly m + ... + (n - 1) successes that came while all slots were held and somebody waited |
| `PoolSizing.GrowsByOnePerSuccess` | crates/konedrive-graph/src/pool.rs:622-645 | with no throttle remembered any more when a success comes, one slot for each such success, up to the ceiling |
| `PoolSizing.BurstHalvesOnce` | crates/konedrive-graph/src/pool.rs:394-415 | throttles that arrive while a wait is set halve the size once |
| `PoolBursts.WaitIsLatestEnd` | crates/konedrive-graph/src/pool.rs:394-415 | over every run on a clock that does not go back, the time the pool keeps is the latest end of the waits not found over yet, and none when there is none |
| `PoolBursts.ThrottleHalvesIff` | crates/konedrive-graph/src/pool.rs:394-415 | after every run, told from the events alone: a throttle halves the size exactly when the wait of each throttle before it, not found over since, ended a grace ago |
| `PoolBursts.EachBurstHalves` | crates/konedrive-graph/src/pool.rs:394-415 | over every run with no success and unchanged limits, the size is what it was, halved once for each burst that began, and one at the least |
| `PoolSizing.NoGraceAfterUnblock` | crates/konedrive-graph/src/pool.rs:512-527 | after the step at the end of a wait the grace does not hold: the next throttle halves |
| `PoolMeter.BucketsAreRecent` | crates/konedrive-graph/src/pool.rs:418-440 | the trimmed buckets have strictly increasing numbers and are at most 120, each of a move |
| `PoolMeter.BucketsReadAsLog` | crates/konedrive-graph/src/pool.rs:651-707 | in every window of at most half a minute the buckets give the log's bytes and its first and last active bucket |
| `PoolMeter.FirstAndLastAreBounds` | crates/konedrive-graph/src/pool.rs:684-701 | those are the least and the greatest bucket of the moves that count, and there are none exactly when no move counts |
| `PoolMeter.AverageIsOfTheLog` | crates/konedrive-graph/src/pool.rs:684-707 | there is an average exactly when something moved that way within ten seconds; it is of the bytes the full log has of the last half minute, over the time since the first of them began, at least a second and at most half a minute |
| `PoolMeter.SumIsBytes` | crates/konedrive-graph/src/pool.rs:651-682 | what a window reads are the bytes of the log's moves that way after its first bucket |
| `Pool.TransferPool.DispatchSlots` | crates/konedrive-graph/src/pool.rs:463-500 | the loop hands out as the rules say, and ends |
| `Pool.TransferPool.Poll` | crates/konedrive-graph/src/pool.rs:762-793 | a first poll puts the future in line and may collect its slot, a later one may collect it; the accounts hold |
| `Pool.TransferPool.TryAcquire` | crates/konedrive-graph/src/pool.rs:368-380 | a slot exactly when one would be handed out now, and nobody is left in line for it |
| `Pool.TransferPool.DropWaiting` | crates/konedrive-graph/src/pool.rs:797-813 | a dropped future gives a granted slot back, which was counted, and lets others go |
| `Pool.TransferPool.Release` | crates/konedrive-graph/src/pool.rs:448-461 | a slot given back was counted; a success may grow the pool first |
| `Pool.TransferPool.SetPaused` | crates/konedrive-graph/src/pool.rs:328-340 | a pause, or its end, is the step it stands for |
| `Pool.TransferPool.SetLimits` | crates/konedrive-graph/src/pool.rs:288-298 | new limits are the step they stand for |
| `Pool.TransferPool.Throttled` | crates/konedrive-graph/src/pool.rs:394-415 | a throttle is the step it stands for |
| `Pool.TransferPool.Unblock` | crates/konedrive-graph/src/pool.rs:502-533 | so is the end of its wait |
| `Pool.TransferPool.Moved` | crates/konedrive-graph/src/pool.rs:418-440 | the meter holds what the log of moves leaves, with one move more, and the totals are those of the log |
| `Pool.TransferPool.Read` | crates/konedrive-graph/src/pool.rs:651-707 | one pass over the buckets gives the reading of the full log |
| `Pool.TransferPool.Show` | crates/konedrive-graph/src/pool.rs:651-707 | what is shown each way is the bytes the log has of the last three seconds, and the average of the full log |
| `StepFacts.PartsAreWhole` | crates/konedrive-tree/src/step_memory/item_memory.rs:445-473 | the facts a row says and those it does not are all the facts, none in both, and what is said is said again |
| `StepFacts.SaidIff` | crates/konedrive-tree/src/step_memory/item_memory.rs:369-397 | what is said of a row, by its own columns and in both directions: a fact of an unsent change under the row's stamp alone, a session or a refusal for space exactly while the row has its bytes or had them before a write, a refused version while the row is at its place with its bytes or is a removal, a taken name while the row is at that place |
| `StepFacts.LearntIff` | crates/konedrive-tree/src/step_memory.rs:590-608 | a fact is learnt exactly under the row's own stamp and when it is true of the row's columns, and then it is answered with all that was |
| `StepFacts.CarriedIsStillSaid` | crates/konedrive-tree/src/step_memory/item_memory.rs:475-495 | facts that hold a content go on being said when it is told by its hash |
| `StepSessions.RememberIs` | crates/konedrive-tree/src/step_memory.rs:626-653 | a session given is continued exactly when the row has the stamp it was given under, is shown, and has the session's bytes or had them before a write; then it is the item's, else it is left to cancel, and so is every session it takes the place of |
| `StepSessions.RememberKeeps` | crates/konedrive-tree/src/step_memory.rs:626-653 | the address is kept after the call and no other is lost |
| `StepSessions.GivenAgainIff` | crates/konedrive-tree/src/step_memory.rs:626-653 | a session given leaves each address in one place exactly when, by the row and the memories before the call, an item that goes on with it goes on with it already or nothing has its address, and otherwise the item does not go on with it and no other keeps it |
| `StepSessions.GivenTwiceIsInTwoPlaces` | crates/konedrive-tree/src/step_memory.rs:626-653 | a store over a valid table where the same address given again, under a stamp the row has no more, is the item's and left to cancel |
| `StepSessions.NewHasOnePlace` | crates/konedrive-tree/src/step_memory.rs:626-653 | an address that nothing has, as OneDrive gives them, meets that condition |
| `StepSessions.AdvanceKeeps` | crates/konedrive-tree/src/step_memory.rs:655-674 | a session is continued only where the item's memory answers it, is another item's untouched, or is left to cancel; no address is lost |
| `StepSessions.AdvanceIff` | crates/konedrive-tree/src/step_memory.rs:655-674 | it is continued exactly when no other item keeps it, and this one does, under the row's stamp and with bytes the row has, or had before a write |
| `StepStandings.RunSaysNoMore` | crates/konedrive-tree/src/step_memory.rs:655-674 | over every run, an item that does not go on with a session begins to only when one is given to it, its row is written, or its bytes are told by another name |
| `StepStandings.WrittenOverIsAbandoned` | crates/konedrive-tree/src/step_memory.rs:655-674 | once a row is written that has the bytes of its session neither now nor before a write, whatever else follows: advanced then, the session is not continued, and its address is among the cancellations unless another item keeps it |
| `StepSessions.GiveUpKeeps` | crates/konedrive-tree/src/step_memory.rs:676-680 | a session given up is left to cancel |
| `StepSessions.EndedKeeps` | crates/konedrive-tree/src/step_memory.rs:682-698 | a session that ended is forgotten where this item kept it, exactly: another item's stays, and so does a cancel left of it |
| `StepSessions.CancelledKeeps` | crates/konedrive-tree/src/step_memory.rs:700-710 | a session reported cancelled is forgotten exactly unless an item's memory answers it |
| `StepAnswers.RememberAnswers` | crates/konedrive-tree/src/step_memory.rs:626-653 | a session given is answered from now on exactly when it is continued, and no other answer, of this item or another, changes |
| `StepAnswers.AdvanceAnswers` | crates/konedrive-tree/src/step_memory.rs:655-674 | a continued session is answered with how far it got, and no other answer changes |
| `StepAnswers.GiveUpAnswers` | crates/konedrive-tree/src/step_memory.rs:676-680 | a session given up is not answered any more, and no other answer changes |
| `StepAnswers.EndedAnswers` | crates/konedrive-tree/src/step_memory.rs:682-698 | a session that ended is not answered any more, another the item has is, and no other answer changes |
| `StepAnswers.ConfirmedAnswers` | crates/konedrive-tree/src/step_memory.rs:852-866 | a confirmed request ends the tries, of an upload exactly the session that ended with it, and of a move the taken name of that place and any other temporary name, and no other answer changes |
| `StepEffects.ConfirmedLeaves` | crates/konedrive-tree/src/step_memory/item_memory.rs:503-532 | the same, fact by fact in the facts' own fields |
| `StepAnswers.GivenBindingAnswers` | crates/konedrive-tree/src/step_memory.rs:886-895 | an item given a binding keeps its temporary name alone, and nothing of another item changes |
| `StepAnswers.FactAnswers` | crates/konedrive-tree/src/step_memory.rs:761-842 | a failed try, a taken name, and a refusal of either kind is answered, as it was given, exactly when the row has its stamp and says what it holds; a try is counted up to the greatest number, and no other answer changes |
| `StepAnswers.FitAnswers` | crates/konedrive-tree/src/step_memory.rs:784-801 | a file that needs no more than the free space is let go, the others are refused for the space there is now, and nothing else changes |
| `StepEffects.RefusalsEnd` | crates/konedrive-tree/src/step_memory.rs:811-826 | of the items found the refusal ends, and no other fact of any item |
| `StepEffects.TriesAreDue` | crates/konedrive-tree/src/step_memory.rs:774-778 | every next try is due at once, as many as were counted, and nothing else changes |
| `StepEffects.NameIsKept` | crates/konedrive-tree/src/step_memory.rs:752-759 | a temporary name is kept exactly for an item with a row and a name that is one, and nothing else changes |
| `StepEffects.ContentIsCarried` | crates/konedrive-tree/src/step_memory/item_memory.rs:475-495 | whatever holds a content of the item holds it by its new name, and nothing else changes |
| `StepAnswers.FollowAnswers` | crates/konedrive-tree/src/step_memory.rs:895-938 | when a binding moves the facts of the changes of both rows go, the taker has the temporary name, no memory holds a place in the directory that lost its binding, and all else stays |
| `StepEffects.MovedBindingLeaves` | crates/konedrive-tree/src/step_memory.rs:879-938 | the same, fact by fact: neither row keeps a fact of its change, the taker has the giver's temporary name, or its own where OneDrive has it at that place, and every other memory has lost exactly the sessions, names and refusals of places in the giver |
| `StepEffects.EmptyFilesFollow` | crates/konedrive-tree/src/step_memory/upload_session_cancellations.rs:82-85 | the sessions left to cancel are the same, and an empty file in the giver is in the taker |
| `StepEffects.GivenIsKept` | crates/konedrive-tree/src/step_memory.rs:626-653 | a session given has its empty file, but for one in a directory without a row |
| `StepEffects.AbandonedIsTold` | crates/konedrive-tree/src/step_memory/upload_session_cancellations.rs:46-59 | the cancel of an abandoned session tells its empty file, by the folded name, and one told already is not told again |
| `StepRuns.DeleteRowKeeps` | crates/konedrive-tree/src/step_memory/upload_session_cancellations.rs:36-45 | a row that goes, whoever deletes it, leaves its session to cancel |
| `StepEffects.DeletedLeaves` | crates/konedrive-tree/src/step_memory.rs:138-155 | the memory of a row that goes is nothing, and every other has lost exactly the names, refusals and empty files in it, but no session |
| `StepRuns.FollowKeeps` | crates/konedrive-tree/src/step_memory.rs:920-938 | a binding that moves loses no address: dropped sessions are left to cancel |
| `StepRuns.StepKeeps` | crates/konedrive-tree/src/step_memory.rs:547-578 | every operation, row write, row deletion and move of a binding keeps every address, makes none up, and keeps what is remembered to items with rows |
| `StepRuns.RunKeepsOwed` | crates/konedrive-tree/src/step_memory.rs:61-69 | over every run: an address given and not reported ended or cancelled is with an item or among the cancellations, and none comes from nowhere |
| `StepRuns.RunKeepsInOnePlaceIff` | crates/konedrive-tree/src/step_memory.rs:61-69 | over every run each address is in one place after every event, and a session an item goes on with is never left to cancel, if and only if each session given meets the condition of `StepSessions.GivenAgainIff` |
| `StepStores.StepMemory.RememberUploadSession` | crates/konedrive-tree/src/step_memory.rs:626-653 | the operation, statement by statement, is the function the lemmas are about |
| `StepStores.StepMemory.AdvanceUploadSession` | crates/konedrive-tree/src/step_memory.rs:655-674 | the same |
| `StepStores.StepMemory.AbandonUploadSession` | crates/konedrive-tree/src/step_memory.rs:676-680 | the same |
| `StepStores.StepMemory.ForgetEndedUploadSession` | crates/konedrive-tree/src/step_memory.rs:682-698 | the same |
| `StepStores.StepMemory.ForgetUploadSessionCancellation` | crates/konedrive-tree/src/step_memory.rs:700-710 | the same, with the loop over the rows found |
| `StepStores.StepMemory.Remember` | crates/konedrive-tree/src/step_memory.rs:761-842 | the same of every other fact of an unsent change |
| `StepStores.StepMemory.RememberOpening` | crates/konedrive-tree/src/step_memory.rs:611-624 | the same of the first write of a try, but for the opening itself, and it is refused exactly when the item or its directory has no row |
| `StepStores.StepMemory.ForgetFittingSpaceRefusals` | crates/konedrive-tree/src/step_memory.rs:784-801 | the same, with the loop over the refusals found |
| `StepStores.StepMemory.BindingMoves` | crates/konedrive-tree/src/step_memory.rs:920-938 | the same of a move of a binding |
| `StepStores.StepMemory.ListEmptyFileSessions` | crates/konedrive-tree/src/step_memory.rs:547-557 | of the sessions at a place one is answered as continued exactly when its item's memory answers it, and as abandoned exactly when its item does not say it or its cancel is left to send |
| `QuickXorRegister.PlacedCommute` | crates/konedrive-graph/src/quickxor.rs:4-14 | bytes are placed in the register in any order |
| `QuickXorRegister.SameBitsSameBytes` | crates/konedrive-graph/src/quickxor.rs:70-88 | two hashes of the same bits are the same bytes |
| `QuickXorRegister.OneByteMore` | crates/konedrive-graph/src/quickxor.rs:4-14 | one byte more of the content, the k-th, turns over exactly the bits that its set bits stand for from bit 11k mod 160 on |
| `QuickXorRegister.LengthIsLast` | crates/konedrive-graph/src/quickxor.rs:80-88 | the length turns over, of bits 96 to 159, those that are set in it |
| `QuickXorRegister.LengthBytesAre` | crates/konedrive-graph/src/quickxor.rs:80-88 | the bytes of the length are its digits to the base 256, the lowest first |
| `QuickXorHash.FinishedIsPublished` | crates/konedrive-graph/src/quickxor.rs:58-88 | for every content the lanes finish with the published hash: byte k at bit 11k mod 160, then the length in the last 8 bytes |
| `QuickXorHash.SplitDoesNotMatter` | crates/konedrive-graph/src/quickxor.rs:58-68 | however the content is split over updates, the hash is the published one of the whole |
| `QuickXorHash.PiecesMakeTheWhole` | crates/konedrive-graph/src/quickxor.rs:42-56 | for every partition of a file, hashed piece by piece at its offsets and combined in any order: the hash of the file |
| `QuickXorHash.QuickXor.Update` | crates/konedrive-graph/src/quickxor.rs:58-68 | the loop folds each byte into the lane of its place in the file |
| `QuickXorHash.QuickXor.Combine` | crates/konedrive-graph/src/quickxor.rs:49-56 | the loop combines lane by lane |
| `QuickXorHash.QuickXor.Finish` | crates/konedrive-graph/src/quickxor.rs:70-88 | the loops over lanes, bits and bytes give the register the lanes and the length finish with |
| `ProgressInvariant.SumIsKept` | app/downloadprogresscontroller.cpp:314-341 | the summed job comes, shows the sum, and goes as the list of the summed does |
| `ProgressEffects.SumOfOne` | app/downloadprogresscontroller.cpp:323-335 | one summed transfer alone shows its own progress |
| `ProgressEffects.SumOfOneMore` | app/downloadprogresscontroller.cpp:323-335 | one more adds what it has done, and its total when all totals are known; when one is not, the total is none |
| `ProgressRuns.PromoteKeeps` | app/downloadprogresscontroller.cpp:247-264 | whoever ran long enough gets a job of its own or joins the summed, and everything holds |
| `ProgressRuns.FinishKeeps` | app/downloadprogresscontroller.cpp:266-312 | a path that ends frees its place for the first of the summed, and everything holds |
| `ProgressEvents.ReconcileKeeps` | app/downloadprogresscontroller.cpp:140-209 | new rows, progress, held and forgotten paths keep everything |
| `ProgressEvents.CheckKeeps` | app/downloadprogresscontroller.cpp:211-245 | promotions, the earliest seen first, and ended graces keep everything |
| `ProgressWhole.EndAllKeeps` | app/downloadprogresscontroller.cpp:360-399 | the switch off, or the service stopped: every job still registered ends, each once |
| `ProgressWhole.RunKeeps` | app/downloadprogresscontroller.cpp:98-138 | so does every run on a clock that does not go back |
| `ProgressWhole.WhatIsShown` | app/downloadprogresscontroller.cpp:140-341 | in every reachable state at most five jobs are visible, the lists are the entries', others are summed only while five are, the summed job exists exactly then and shows the sum, and each job ever registered is still shown or was ended and unregistered once |
| `ProgressWhole.EarliestAreShown` | app/downloadprogresscontroller.h:85-89 | whoever has a job was seen before whoever is summed, and both before whoever is not shown |
| `ProgressWhole.ListedOrHeld` | app/downloadprogresscontroller.cpp:140-209 | after the transfers changed there are those listed and, held, exactly those that left and were shown |
| `ProgressWhole.NothingDueIsLeft` | app/downloadprogresscontroller.cpp:211-245 | after a check exactly the held whose grace ended are gone; whoever is not shown was seen less than two seconds ago, and whoever is shown now and was not, at least two |
| `ProgressEffects.FinishSaysHow` | app/downloadprogresscontroller.cpp:266-282 | a transfer with a job of its own that ends is told how, and nothing after |
| `ProgressEffects.CheckSaysHow` | app/downloadprogresscontroller.cpp:211-245 | when the time passed a transfer's job is told that it went through exactly when it left and its grace ended, and no other transfer's job is told anything |
| `ProgressEffects.EndAllSaysHow` | app/downloadprogresscontroller.cpp:360-399 | every job there is, the summed one too, is told how everything ended |
| `ProgressEffects.ReconcileShows` | app/downloadprogresscontroller.cpp:140-209 | what is listed has its row's progress and the time it was first seen, what just left is held for its grace, and a grace that ran runs on |
| `Progress.DownloadProgressController.ReconcileWith` | app/downloadprogresscontroller.cpp:140-209 | the loops over the rows and over the paths that left are the event they stand for |
| `Progress.DownloadProgressController.CheckAt` | app/downloadprogresscontroller.cpp:211-245 | the loops over the due and the expired are the event they stand for |
| `Progress.DownloadProgressController.Finish` | app/downloadprogresscontroller.cpp:266-292 | the end of a path |
| `Progress.DownloadProgressController.SumOfOverflow` | app/downloadprogresscontroller.cpp:323-335 | the sum of what is done, and of the totals when all are known |
| `Progress.DownloadProgressController.EndEverything` | app/downloadprogresscontroller.cpp:360-399 | the end of everything |
| `Progress.DownloadProgressController.NextCheck` | app/downloadprogresscontroller.cpp:343-358 | the timer is set exactly when somebody waits, and for the soonest of them, within bounds |
| `OverlayInvariant.OldestHasNoDependents` | dolphin/src/overlayengine.cpp:133-143 | the least recently used directory is no root that an entry depends on |
| `OverlayInvariant.ForgetTreesKeepIff` | dolphin/src/overlayengine.cpp:206-217 | when what lies below the directories that left, or names one, is forgotten, the cache is as it should be exactly when no answer that stays names a root that goes |
| `OverlayInvariant.InvIff` | dolphin/src/overlayengine.cpp:133-143 | the cache is as it should be exactly when the limit, the index and every root cached and used later hold now, and after whichever cached directory is asked about next |
| `OverlayInvariant.MakeRoomKeeps` | dolphin/src/overlayengine.cpp:164-172 | making room ends below the limit, and changes nothing of what stays |
| `OverlayAsking.AskKeepsIff` | dolphin/src/overlayengine.cpp:86-131 | asking keeps the cache within its limit, the index of watches the exact inverse, and every root that is named cached and used later, exactly when the root named is cached and names no third directory, or is not cached and can be watched |
| `OverlayReading.ReadKeeps` | dolphin/src/overlayengine.cpp:287-370 | one call reads all that was told, what left and what marks changed, whatever other marks are set: the cache is as it should be when each answer left behind is worked out again or its root asked for, every root named then and cached names no third directory, and each asked for is cached or can be watched |
| `OverlayReading.ReadKeepsIff` | dolphin/src/overlayengine.cpp:287-370 | and exactly then, while there is room for the roots that are asked for: it is as it should be now, and after whichever cached directory is asked about next |
| `OverlayReading.ReadIsCurrent` | dolphin/src/overlayengine.cpp:219-266 | when what is not worked out again is as the disk says, every answer is what the disk says then (from marks alone: `OverlayMarks.MarksAreReadIff`) |
| `OverlayMarks.MarksAreReadIff` | dolphin/src/overlayengine.cpp:206-266 | on a disk of marks, where a path's root is the nearest marked directory at or above where it leads: when every answer was what the marks were, and the changed marks were told by the watches of their directories, every answer is what the marks are, if, and with room for the roots asked for only if, no link is missed |
| `OverlayMarks.NoneIsMissed` | dolphin/src/overlayengine.cpp:28-31 | a directory that is cached by the path it leads to is never missed |
| `OverlayMarks.MarksAreRead` | dolphin/src/overlayengine.cpp:206-266 | where all are cached so, every answer is what the marks are |
| `OverlayMarks.ForgottenIff` | dolphin/src/overlayengine.cpp:206-217 | when watches told that their directories left, exactly those are forgotten that are under one of them by their names, or whose root is one, or is under one and names itself; the others stay as they were |
| `OverlayMarks.BelowIsForgotten` | dolphin/src/overlayengine.cpp:206-217 | whoever's parents reach a directory whose watch told that it left, or whose root it was, is forgotten |
| `OverlayReading.OverflowRepairs` | dolphin/src/overlayengine.cpp:344-363 | when some was not told, from every cache within its limit whose index is exact: every answer is what the disk says then, and the cache is as it should be when each root named comes into it |
| `OverlayRuns.RunKeeps` | dolphin/src/overlayengine.cpp:86-370 | over every run in which each question and each reading of what was told meets its condition above, directories leaving and marks being set and told in any order, the cache is as it should be |
| `OverlayRuns.AnyRunIsRepaired` | dolphin/src/overlayengine.cpp:344-363 | over every run whatever, the cache is within its limit and the index of watches exact, and an overflow mends every answer |
| `OverlayRuns.NoRootGoesFirst` | dolphin/src/overlayengine.cpp:164-172 | in every reachable state, within the limit, and eviction takes no root while an entry depends on it |
| `OverlayAsking.LeastUsedGo` | dolphin/src/overlayengine.cpp:164-172 | whoever is evicted was used before whoever stays |
| `OverlayAsking.AskAnswers` | dolphin/src/overlayengine.cpp:86-131 | there is an answer exactly when the directory is cached or a watch of it is granted, and it is the cached one or what the disk says now |
| `OverlayRuns.StaleRootIsLost` | dolphin/src/overlayengine.cpp:86-131 | a root whose own answer is stale: an eviction takes a root that is depended on, and leaves an answer whose root is not cached |
| `OverlayRuns.LinkIsReached` | dolphin/src/overlayengine.cpp:86-131 | a run of three questions, each of which meets its condition, to the next row's cache |
| `OverlayRuns.LinkIsLeftBehind` | dolphin/src/overlayengine.cpp:206-217 | a cached directory was moved away and is told to have left: a root in it goes, whose watch is of the old one, and the answer of a link elsewhere goes on naming it, also when it is asked about again |
| `OverlayRuns.LinkUnmarkedIsReached` | dolphin/src/overlayengine.cpp:86-131 | a run of two questions to the next row's cache |
| `OverlayRuns.LinkIsMissed` | dolphin/src/overlayengine.cpp:219-228 | the directory a link leads into is marked and its watch tells it; the link's answer goes on to be that it is in no root |
| `Overlay.OverlayEngine.ForgetDirectory` | dolphin/src/overlayengine.cpp:174-204 | forgetting ends, with the directory, its watch when nobody else has it, and all that names it as its root |
| `Overlay.OverlayEngine.MakeRoomForOne` | dolphin/src/overlayengine.cpp:164-172 | the loop evicts the least recently used until there is room |
| `Overlay.OverlayEngine.FindOldest` | dolphin/src/overlayengine.cpp:167-169 | one look at each finds the least recently used |
| `Overlay.OverlayEngine.DirectoryFor` | dolphin/src/overlayengine.cpp:86-131 | the cached answer, made when there is none, with the root's own |
| `Overlay.OverlayEngine.ForgetTreeOf` | dolphin/src/overlayengine.cpp:206-217 | the loop over the doomed |
| `Overlay.OverlayEngine.CollectTold` | dolphin/src/overlayengine.cpp:287-342 | the loop over what was told collects the paths of the watches, as they are before anything is forgotten |
| `Overlay.OverlayEngine.ReadEvents` | dolphin/src/overlayengine.cpp:287-370 | the loop over the directories that left, and then what is worked out again, are the reading the lemmas are about |
| `Overlay.OverlayEngine.Resolve` | dolphin/src/overlayengine.cpp:219-266 | the loops over the affected and over the roots they name |
| `ConflictRows.WantedAreNewest` | app/conflictmodel.cpp:84-101 | the rows are of exactly the conflicts that are the newest of their copy, newest first and else in the order given, cut at 200 |
| `ConflictRows.WantedAreDistinct` | app/conflictmodel.cpp:84-101 | no two rows have one copy |
| `Conflicts.DiffMakesRows` | app/conflictmodel.cpp:170-191 | the one removal, the one insertion and the rows read again make of the old rows the new ones |
| `Conflicts.FindRun` | app/conflictmodel.cpp:118-132 | the count and the ends say exactly whether the rows are one run, and which |
| `Conflicts.ConflictModel.CompareKept` | app/conflictmodel.cpp:146-168 | the loop says exactly whether the rows kept stand in one order, and between which rows fields changed |
| `Conflicts.ConflictModel.SetConflicts` | app/conflictmodel.cpp:79-196 | for all old and new lists the diff, or the reset, makes of a view's rows the new ones, and it is one diff exactly when one is enough |
| `ReasonText.NumberRoundTrip` | crates/konedrive-reason/src/lib.rs:415-419 | a number of 64 bits comes back from its print |
| `ReasonText.NumberIff` | crates/konedrive-reason/src/lib.rs:415-419 | for every string: it is read as a number exactly when it is one that 64 bits hold, printed, with zeros and a plus sign in front or not |
| `Reasons.KeyIsFound` | crates/konedrive-reason/src/lib.rs:246-249 | no two reasons have one key |
| `ReasonTable.SpellingsAre` | crates/konedrive-reason/src/lib.rs:185-223 | for every string and named reason: it is parsed as that reason without a detail exactly when it is the spelling in the table |
| `ReasonTable.GroupsAre` | crates/konedrive-reason/src/lib.rs:273-303 | for every string: the group it is presented under, by the table of spellings, and none for one that is not in it |
| `Reasons.PrintOfParse` | crates/konedrive-reason/src/lib.rs:251-268 | for every string, what is parsed of it prints back byte for byte |
| `Reasons.ParseOfPrint` | crates/konedrive-reason/src/lib.rs:330-342 | for every named reason, with any detail or sizes, parsing its print gives it back |
| `Reasons.KeyOfIsKeyOfParse` | crates/konedrive-reason/src/lib.rs:421-444 | for every string, its key, its group and its sizes are those of the reason it spells |
| `Reasons.KeyOfIs` | crates/konedrive-reason/src/lib.rs:421-432 | for every string: it is summed under too-big when it names two sizes, under the key of the table that stands before `: `, and else under itself |
| `Reasons.KeyAndDetailAreAll` | crates/konedrive-reason/src/lib.rs:434-439 | for every string, the key and the detail behind it are the whole string |
| `Reasons.KeyAndDetailOfParse` | crates/konedrive-reason/src/lib.rs:225-233 | for every string: so are the key and the detail of the reason it spells |
| `Reasons.WaitsForSpaceIff` | crates/konedrive-reason/src/lib.rs:314-322 | for every string, its row waits for space exactly when it says so or begins as a file too big |
| `Reasons.ParseOfPrintWait` | crates/konedrive-reason/src/lib.rs:391-413 | what an item waits for, when it is named, comes back from its print |
| `Reasons.PrintOfParseWaitIff` | crates/konedrive-reason/src/lib.rs:391-413 | a string prints back as it stood exactly unless it is `cycle:`, `open-for-writing` alone, or a number of uploads with a plus sign or zeros in front |

## Left out

- SQLite itself: a table is a map or a sequence, a statement a function of it, and a transaction all or nothing.
- The operations that give a binding first, give it up or merge two items (`bindings.rs`, other than the one a local change does), listings, confirmations and pins: the item rows change by local changes and exchanges alone. What steps remember is modelled for every change of a row.
- The stored flag that says an item is below an ignored directory: the model works it out from the rows.
- Where an item stands aside during an exchange: the name the model gives it does not hold the item's id, as two items never stand aside at once.
- Names folded as OneDrive compares them: a folded name is given with the name.
- 64-bit counters and sizes are unbounded numbers; the numbers a reason holds, and the count of failed tries, are bounded as in the program.
- Wakers, observers, publishing and division in floating point in the pool: the bytes and the time an average is taken of are modelled, and nothing is said of the order in which tasks wake.
- The end of a throttle's wait reads and clears the time in two lock regions; it is one step here, taken when the wait is over.
- Openings of upload sessions, items an upload left with other content, request records, and the triggers that void a taken name: none of them holds a session's address.
- Base64 of a hash.
- The words of jobs, and the timer itself: when it is to fire is modelled.
- OverlayReading.ReadKeepsIff: exact while there is room for the roots asked for; in a full cache the condition is enough (`OverlayReading.ReadKeeps`), but an answer that has no root may be evicted by then, and then does no harm.
- The emblems of files, and what is told of single files. A watch the kernel dropped by itself is told as a directory that left: all its paths are forgotten in that call.
- The roles and texts of the conflict list's rows.
- User interface, settings, D-Bus, sign-in, HTTP and the network.
