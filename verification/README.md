# Verified models of the panel's protocols and algorithms

This project models the parts of the repository in which something can go wrong that one does
not see by reading one function: protocols between asynchronous replies and user actions,
reconciliation passes over tables, a valuation with rounding, and several text algorithms.

One module per component:

- `SelfCheck`: the self-check dialog. Up to four cooperative workers share a cursor and the
  result rows and are cancelled by a run id. Every step between two awaits is an event;
  the theorems are about every sequence of events, with any number of superseded runs still
  replying.
- `Portfolio`: merging quotes into the nested portfolio, over exact reals, with rounding to
  cents exactly where the program rounds; collecting the quote requests and the quote map.
- `Reorder`: drag and drop on the watchlist as a state machine, and on positions.
- `DataSources`, `AgentSeeds`: the reconciliation of two tables with arbitrary presets. The
  data sources are matched by (name, provider) but are legal by (type, provider), which is what
  makes the fixed point delicate.
- `OfficialScreen`: replies guarded by a sequence number.
- `Signals`: a comparison by five keys, the fold to a leader, grouping and sorting.
- `ResponseWrapper`: the ASGI middleware, as a transformer of message sequences, and its envelopes.
- `Cron`: the schedule parser and printer.
- `Slug`: heading slugs and the table of contents.
- `TokenStream`, `Fences`: frame batching and fence closing in the chat.
- `LoggerMap`: the longest-prefix lookup.
- `Wrappers`, `Text`, `Sorting`: options, JavaScript's string primitives, and a stable sort.

Where the program keeps state, a class has the program's fields and methods; each method is
proved equal to one step of a function on states, and the theorems are about all sequences of
those steps. Where it computes in loops, the method has the loop and is proved against a
function, and the theorems are about that function.

Automatic induction is switched off in every lemma: each induction is written out.

Some properties one would expect are false of the code. The model keeps the code as it is, gives
a concrete case, and proves exactly when the property holds:

- The dialog's `running` flag survives closing it (`SelfCheck.RunningSurvivesClose`; exactly when:
  `SelfCheck.RunningAfterCloseIff`; it is right while open: `SelfCheck.FlagsOfOpenDialog`).
- A failed save does not undo the drag it belongs to (`Reorder.RefusedOrderStays`; exactly when it
  undoes anything: `Reorder.FailedSaveRollsBackOnlyDuringADrag`).
- A reconciliation pass can lose a preset until the next pass
  (`DataSources.PresetLostByOnePass`; exactly when: `DataSources.MissingAfterOnePassIff` and
  `DataSources.OnePassIsEnoughIff`). The comment at server.py:723 promises that every row but the
  orphans stays as it was; a preset's first match may get a new batch flag and test symbols.
- The first seeding of agents inserts incomplete specs as they are, and the second pass corrects
  them (`AgentSeeds.FreshCapabilityRunsUntilTheNextPass`; exactly when:
  `AgentSeeds.OnePassIsEnoughIff`). Every spec of the shipped catalogue is complete, so with it one
  pass is enough (`AgentSeeds.ShippedNeedsOnePass`).
- The comment at server.py:349 promises that missing settings are added to existing configurations.
  The dictionary is changed in place and assigned to the attribute it came from, a plain JSON
  column (src/platform/persistence/models.py:178), so the mapper compares it with itself and
  writes nothing (`AgentSeeds.EventOnlyIsNotAdded`; exactly when event_only is stored:
  `AgentSeeds.EventOnlyStoredIff`).
- A position without a price lowers its account's profit by its full cost while it shows no
  profit of its own (`Portfolio.UnpricedAccountLosesItsCost`; exactly when the two agree:
  `Portfolio.UnpricedPositionsCountAsLost`).
- Combining quotes by object spread forgets a price when a newer entry lacks it
  (`Portfolio.SpreadForgetsAPrice`; exactly when not: `Portfolio.SpreadIsOverlay`).
- The schedule editor widens schedules its form cannot hold, a shipped one among them
  (`Cron.IntradayScheduleIsWidened`; exactly when: `Cron.SavingKeepsFields`), and an interval of
  zero becomes 30 (`Cron.ParsePrintInterval`).
- Two kinds of envelopes change when wrapped again (`ResponseWrapper.LossyRewraps` and, for whole
  responses, `ResponseWrapper.NullResponseDiffers`; exactly when not:
  `ResponseWrapper.RewrapIsIdentityIff` and `ResponseWrapper.DoubleWrappingIff`).

A drop sends the order of the array, which need not be the displayed one
(`Reorder.DropInPlaceSendsArrayOrder`). That the server answers in display order is what makes
every drop send what is shown (`Reorder.DropsSendWhatIsShown`). Rows without a place could break
that order (`Reorder.AnsweredInOrderIff`); src/platform/persistence/database.py:219-237 gives every
row a place at start-up and src/modules/market/api/stocks.py:275-276 gives new rows one.

## Model

| member | source | states |
|---|---|---|
| SelfCheck.RequestsOfARun | frontend/src/components/SelfCheckModal.tsx:153-179 | In every schedule of starts, replies, claims, closes and joins, a run has probed exactly the indices 0..k-1, each once and in order; an index is in flight iff it was probed and not answered; at most four requests are in flight |
| SelfCheck.CheckingRows | frontend/src/components/SelfCheckModal.tsx:143-172 | While a run is current (distinct keys), row j is still `checking` iff j is at or past the cursor or its request is in flight, and every row shows exactly what its own reply said |
| SelfCheck.FinishedRun | frontend/src/components/SelfCheckModal.tsx:153-179 | When all workers of the current run have left, every index was probed exactly once and answered and no row is `checking`, also when rows share a key |
| SelfCheck.ReplyIsShown | frontend/src/components/SelfCheckModal.tsx:154-172 | Whatever happens before and after a worker of the current run gets its reply, for as long as the run is current the row of the check it probed shows that reply field by field: the probed status, latency, error, hint and note, or a failure with the fixed texts |
| SelfCheck.UnansweredRowsAreBlank | frontend/src/components/SelfCheckModal.tsx:145-149 | A check that was not answered yet is shown as checking with nothing else filled in |
| SelfCheck.ListErrorIsShown | frontend/src/components/SelfCheckModal.tsx:135-140 | The message of a failed list is shown, with no rows, for as long as its run is current |
| SelfCheck.FlagsOfOpenDialog | frontend/src/components/SelfCheckModal.tsx:125-149 | While the dialog is open, `running` is true iff the current run still lists or probes, and a list error is shown iff the list of the current run failed |
| SelfCheck.RunningAfterCloseIff | frontend/src/components/SelfCheckModal.tsx:175-185 | Exactly when the flag is wrong: for as long as the dialog stays closed, `running` is set iff it was closed while its run was live, whatever replies still come |
| SelfCheck.ClosedKeepsScreen | frontend/src/components/SelfCheckModal.tsx:136-185 | While the dialog is closed no step of any run changes what is shown |
| SelfCheck.RunningSurvivesClose | frontend/src/components/SelfCheckModal.tsx:182-185 | Counterexample: closing during a run leaves `running` set with no current run; the flag is only right while the dialog is open |
| SelfCheck.StaleStepInvisible | frontend/src/components/SelfCheckModal.tsx:136-172 | A step of a run that is no longer current changes neither rows, running, listError nor the current run |
| SelfCheck.CurrentStepDependsOnView | frontend/src/components/SelfCheckModal.tsx:125-185 | A step of the current run or of the user reads only the screen and the current run, never a superseded one |
| SelfCheck.StaleStepsCanBeErased | frontend/src/components/SelfCheckModal.tsx:126-185 | Cancellation over whole histories: erasing every step of every superseded run leaves the same screen and the same current run |
| SelfCheck.StepPaysWork | frontend/src/components/SelfCheckModal.tsx:158-179 | Each real step of a run, current or not, uses up exactly one unit of (2 per unclaimed index, the debts of its workers, the join); steps of other runs use none |
| SelfCheck.WorkIsConserved | frontend/src/components/SelfCheckModal.tsx:158-179 | Work left plus steps taken is constant along every history, so every run ends |
| SelfCheck.WorkOfNewRun | frontend/src/components/SelfCheckModal.tsx:153-177 | The bound: a run over n > 0 checks takes 2n + min(4, n) + 1 steps |
| SelfCheck.NoDeadlock | frontend/src/components/SelfCheckModal.tsx:125-179 | A run that still lists or has not joined always has a step it can take |
| SelfCheck.ExecKeepsInv | frontend/src/components/SelfCheckModal.tsx:125-185 | The inductive invariant of the protocol holds after every history |
| SelfCheck.StepKeepsInv | frontend/src/components/SelfCheckModal.tsx:125-185 | Each single event keeps the invariant |
| SelfCheck.AnswerKeepsRows | frontend/src/components/SelfCheckModal.tsx:154-172 | Merging one reply by key keeps rows and replies in step |
| SelfCheck.SelfCheckModal.constructor | frontend/src/components/SelfCheckModal.tsx:112-117 | The dialog starts closed, with no rows and no run |
| SelfCheck.SelfCheckModal.RunCheck | frontend/src/components/SelfCheckModal.tsx:125-129 | Opening the dialog or re-running bumps the run id, clears the screen and starts a listing run; the invariant is kept |
| SelfCheck.SelfCheckModal.CloseDialog | frontend/src/components/SelfCheckModal.tsx:182-185 | Closing bumps the run id and touches nothing else |
| SelfCheck.SelfCheckModal.ReceiveList | frontend/src/components/SelfCheckModal.tsx:141-153 | The list reply: ignored when superseded, else the skeleton rows and a pool of min(4, n) workers, or the end for an empty list |
| SelfCheck.SelfCheckModal.FailList | frontend/src/components/SelfCheckModal.tsx:135-140 | The failed list: ignored when superseded, else the error and no longer running |
| SelfCheck.SelfCheckModal.ClaimIndex | frontend/src/components/SelfCheckModal.tsx:159-164 | A worker at the top of its loop leaves when superseded or when the list is used up, else takes the next index and sends its probe |
| SelfCheck.SelfCheckModal.ReceiveAnswer | frontend/src/components/SelfCheckModal.tsx:154-172 | A reply, an empty reply or an exception is written to all rows of the key iff the run is current |
| SelfCheck.SelfCheckModal.JoinWorkers | frontend/src/components/SelfCheckModal.tsx:175-179 | Once all workers have left, the current run stops running; a superseded one changes nothing |
| Portfolio.MergePortfolioQuotes | frontend/src/pages/Stocks.tsx:286-407 | The nested loops with their running totals compute the valuation whose laws are below, for every portfolio and every quote map; null stays null |
| Portfolio.MergeAccount | frontend/src/pages/Stocks.tsx:316-388 | The inner loop: the revalued account and its three unrounded running totals |
| Portfolio.RatesPerMarket | frontend/src/pages/Stocks.tsx:295-309 | The rate of every market in either base currency, from the portfolio or the fixed default |
| Portfolio.QuotesReachPositions | frontend/src/pages/Stocks.tsx:321-325 | Price and change are those of the quote under market:symbol where it has them, else the old ones; nothing else but the figures changes |
| Portfolio.FiguresMean | frontend/src/pages/Stocks.tsx:327-344 | Market value in base currency is price times quantity times rate, by both ways of computing it; profit is (price - cost price) times quantity times rate; the percentage times the cost is 100 times the profit |
| Portfolio.DailyMeans | frontend/src/pages/Stocks.tsx:346-352 | The daily profit is shown iff the price from which the change leads to today's is positive, and is the rounded gain over it |
| Portfolio.NoDaily | frontend/src/pages/Stocks.tsx:346 | Without price or change, or at -100%, no daily profit |
| Portfolio.YesterdayIsUnique | frontend/src/pages/Stocks.tsx:347 | For every other change exactly one price leads to today's |
| Portfolio.RoundsHalfUp | frontend/src/pages/Stocks.tsx:284 | Rounding gives k cents iff the value is in [k - 0.5, k + 0.5) cents |
| Portfolio.AccountWorth | frontend/src/pages/Stocks.tsx:316-341 | An account's market value and cost are sums over the positions it had, of quoted price or cost price times quantity times rate |
| Portfolio.AccountTotalsMean | frontend/src/pages/Stocks.tsx:370-387 | Each shown figure of an account is the exact one, in these terms, rounded once; assets include the available funds |
| Portfolio.MergeIsAnAction | frontend/src/pages/Stocks.tsx:286-407 | Merging q1 and then q2 equals merging once with the field-wise overlay that prefers non-null q2, for every position, account and total |
| Portfolio.MergeAgainIsNoOp | frontend/src/pages/Stocks.tsx:286-407 | Merging the same quotes again changes nothing in the whole nested portfolio |
| Portfolio.SpreadIsOverlay | frontend/src/pages/Stocks.tsx:784-786 | The object spread by which the page combines quotes is that overlay iff no newer entry lacks a field the older one had |
| Portfolio.SpreadForgetsAPrice | frontend/src/pages/Stocks.tsx:784-786 | Counterexample: a newer quote without a price makes the spread forget a price that merging one after the other keeps |
| Portfolio.AccountFigures | frontend/src/pages/Stocks.tsx:370-387 | The shown figures of every account are the once-rounded exact figures of its positions |
| Portfolio.GrandFigures | frontend/src/pages/Stocks.tsx:374-406 | The grand figures are rounded sums of the unrounded account figures |
| Portfolio.RoundingDrift | frontend/src/pages/Stocks.tsx:284-407 | Each grand market value, cost, profit and assets figure is within 0.005 (n + 1) of the sum of the n shown account figures |
| Portfolio.DailyIsCents | frontend/src/pages/Stocks.tsx:345-352 | A position's shown daily profit is a whole number of cents |
| Portfolio.DailyTotalsAreExact | frontend/src/pages/Stocks.tsx:345-404 | The daily totals of accounts and portfolio are exactly the sums of the positions' shown daily profits: rounding them again loses nothing |
| Portfolio.UnpricedPositionsCountAsLost | frontend/src/pages/Stocks.tsx:320-388 | An account's unrounded profit is that of its priced positions minus the full cost of the unpriced ones; it equals the sum of the profits its positions show iff those costs add up to zero |
| Portfolio.UnpricedAccountLosesItsCost | frontend/src/pages/Stocks.tsx:320-388 | Counterexample: an account with one unpriced position bought for 100 shows a loss of 100, its position shows none |
| Portfolio.RevalueTwice | frontend/src/pages/Stocks.tsx:321-367 | A position revalued twice is the position revalued once with the overlay |
| Portfolio.EveryListingOnce | frontend/src/pages/Stocks.tsx:243-259 | Every listing on an enabled market is asked for under its key, nothing else is, and no key twice |
| Portfolio.RequestsInOrder | frontend/src/pages/Stocks.tsx:246-252 | The requests are exactly the first listings of their keys on enabled markets, in the order of those places |
| Portfolio.EveryPositionListed | frontend/src/pages/Stocks.tsx:255-257 | The positions of all accounts, and nothing else, are listed with their symbols and markets |
| Portfolio.ListingKeysMatch | frontend/src/pages/Stocks.tsx:249-264 | Quotes are stored under the key under which positions look them up |
| Portfolio.BuildQuoteItemsFrom | frontend/src/pages/Stocks.tsx:243-259 | The two loops over watchlist and positions produce the first listing of each key in order |
| Portfolio.ToQuoteMap | frontend/src/pages/Stocks.tsx:261-271 | The map has exactly the keys of the rows, each with the quote of the last row that has it |
| Reorder.MoveById | frontend/src/pages/Stocks.tsx:537-545 | The two splices move the item to the index of its target, or return the list when an id is missing; always a permutation |
| Reorder.FindIndex | frontend/src/pages/Stocks.tsx:538-539 | The first index with the id, or -1 |
| Reorder.MoveToSpec | frontend/src/pages/Stocks.tsx:541-544 | The moved item arrives at the target index, the others keep their order, and moving back undoes it |
| Reorder.DisplayedFacts | frontend/src/pages/Stocks.tsx:558 | The display order is a sorted permutation, and a list that is in order is displayed as it stands |
| Reorder.PreviewKeeps | frontend/src/pages/Stocks.tsx:555-562 | A preview permutes the list, keeps everything but the places, and numbers them 1..n so that re-sorting is the identity |
| Reorder.PreviewMovesOneItem | frontend/src/pages/Stocks.tsx:555-562 | In the displayed order the dragged item takes its target's old place, all others keep their order, and previewing the way back restores it |
| Reorder.DragsPermute | frontend/src/pages/Stocks.tsx:547-573 | After any history of drags, previews, drops and failed saves the list is a permutation of the loaded one, numbered 1..n unless untouched; what a drop sends is the displayed order iff the array is in that order, so always once a preview has renumbered it |
| Reorder.DragOverMoves | frontend/src/pages/Stocks.tsx:2454-2459 | For every state with an item dragged over another listed one: in what is displayed the dragged item goes to the index the other one had, all others keep their order, and nothing else changes |
| Reorder.DragOverRests | frontend/src/pages/Stocks.tsx:556 | Over itself, or with an item that is not listed, the displayed order stays |
| Reorder.FirstOverLast | frontend/src/pages/Stocks.tsx:537-562 | Three items, the first dragged over the last: 2, 3, 1 |
| Reorder.DraggedSince | frontend/src/pages/Stocks.tsx:2446-2470 | Over every history, what is dragged is what the last drag start took up that no drop or drag end has followed, and the snapshot is the list as it was then |
| Reorder.NothingElseMoves | frontend/src/pages/Stocks.tsx:547-573 | Only dragging over an item and a failed save change the list; only a drop sends |
| Reorder.AnsweredInOrderIff | src/modules/market/api/stocks.py:208-212 | The answer to GET /stocks is in display order iff no row without a place is answered before a row displayed above it; always when every row has a place |
| Reorder.DropsSendWhatIsShown | frontend/src/pages/Stocks.tsx:547-573 | For such an answer, of which the page keeps the rows of enabled markets, every drop of every history sends exactly the displayed order |
| Reorder.PayloadIsDisplayedOrder | frontend/src/pages/Stocks.tsx:547-553 | With distinct ids the payload equals that of the displayed order iff the array is in display order |
| Reorder.DropInPlaceSendsArrayOrder | frontend/src/pages/Stocks.tsx:2451-2466 | What the order of the server's answer prevents: on a list that is not in display order, dropping an item where it was picked up would send another order than the one displayed |
| Reorder.FailedSaveRollsBackOnlyDuringADrag | frontend/src/pages/Stocks.tsx:564-573 | A failed save restores the snapshot iff another drag is in progress by then; for the drag that was dropped it restores nothing, because the drop has cleared the snapshot |
| Reorder.RefusedOrderStays | frontend/src/pages/Stocks.tsx:564-573 | Counterexample: two stocks swapped by a drag whose save fails stay swapped |
| Reorder.ExecKeepsDragInv | frontend/src/pages/Stocks.tsx:2446-2470 | After every history the list and the snapshot are reorderings of the loaded list, and there is a snapshot iff something is dragged |
| Reorder.PreviewPositionsKeeps | frontend/src/pages/Stocks.tsx:583-594 | A position preview leaves other accounts alone and permutes and renumbers the positions of its own |
| Reorder.PreviewPositionsMovesOneItem | frontend/src/pages/Stocks.tsx:583-594 | The dragged position takes the index its target had, the others keep their order, the way back restores it; with a missing id nothing moves |
| Reorder.Watchlist.OnDragStart | frontend/src/pages/Stocks.tsx:2446-2450 | Takes the snapshot and the dragged id |
| Reorder.Watchlist.OnDragOver | frontend/src/pages/Stocks.tsx:555-562 | Sort, move, renumber -- or nothing without a drag or over the dragged item itself |
| Reorder.Watchlist.OnDrop | frontend/src/pages/Stocks.tsx:2461-2466 | Sends the array order if something was dragged and the list is not empty, and clears both refs |
| Reorder.Watchlist.OnDragEnd | frontend/src/pages/Stocks.tsx:2467-2470 | Clears both refs and nothing else |
| Reorder.Watchlist.OnSaveFailed | frontend/src/pages/Stocks.tsx:569-572 | Restores the snapshot if there is one |
| DataSources.ReconciliationSettles | server.py:717-746 | For any presets, vendors and table: after one pass every row is legal, a second pass deletes nothing and has all presets, a third changes nothing |
| DataSources.OnePassIsEnoughIff | server.py:660-746 | A second pass changes nothing iff every preset was unmatched, first matched by a legal row, or its first legal match already had the batch flag and the test symbols seeding gives |
| DataSources.OnePassIsEnough | server.py:675-746 | One pass suffices when no row matches a preset's (name, provider) under a type where the provider is illegal |
| DataSources.PresetAfterOnePass | server.py:675-746 | When a given preset has a row after one pass, and when that row is in step |
| DataSources.MissingAfterOnePassIff | server.py:675-746 | A preset is missing after one pass iff rows matched it and all of them were orphans |
| DataSources.PresetLostByOnePass | server.py:675-746 | Counterexample: one orphan with the preset's name and provider under another type leaves an empty table after the first pass; the second adds the preset |
| DataSources.LegalRowsSurvive | server.py:692-697 | A legal row survives with all fields but the batch flag and the test symbols, entirely unchanged unless it is a preset's first match; test symbols that were set change only on a reset |
| DataSources.DeletedIff | server.py:730-737 | A row of the seeded table is deleted and reported iff no preset has its type and provider and the engine does not have its provider for its type; otherwise it is kept |
| DataSources.VendorRowsSurvive | server.py:730-737 | Every row with a provider the engine has for its type survives a pass, all but its two synced fields as they were |
| DataSources.FirstMatchTakesOver | server.py:690-697 | The first row a preset matches gets the last such preset's batch flag and, on a reset, its test symbols; without a reset test symbols are only filled in, from the first preset that offers any |
| DataSources.AddedAsSpecified | server.py:699 | Presets with distinct keys are inserted exactly as they are |
| DataSources.DeletionSplits | server.py:730-737 | Deletion keeps exactly the legal rows; the report lists exactly the illegal ones, with multiplicity |
| DataSources.MissingAreAdded | server.py:698-706 | The report of missing presets matches, in order, exactly the rows appended, whose fields are those of the presets but for what repeated presets sync |
| DataSources.Seeding | server.py:675-706 | Seeding syncs first matches, leaves all other rows alone, appends only presets that had no row, and leaves every preset present |
| DataSources.SeedingFixedPoints | server.py:675-706 | Seeding changes nothing iff every preset has a row whose first match has the last such preset's batch flag and, on a reset, its test symbols, else some test symbols unless no preset offers any |
| DataSources.InStepIff | server.py:690-697 | All rounds of the seeding loop together leave a row alone iff its batch flag and test symbols are those |
| DataSources.SeededIsSettled | server.py:675-706 | One seeding reaches such a table, also with repeated presets |
| DataSources.SeedingKeepsLegality | server.py:675-737 | Seeding turns no row into an orphan and adds no orphan |
| DataSources.SeedingKeepsIds | server.py:675-706 | Row ids stay distinct |
| DataSources.DataSourceTable.First | server.py:676-683 | The query finds the first row with the name and the provider |
| DataSources.DataSourceTable.SeedOne | server.py:676-704 | One round of the seeding loop, including the three cases for test symbols |
| DataSources.DataSourceTable.SeedDataSources | server.py:675-706 | The seeding loop computes the table and the report the laws above speak of |
| DataSources.DataSourceTable.DeleteOrphans | server.py:730-737 | The deletion loop splits the table into the rows that stay and the rows that are reported |
| DataSources.DataSourceTable.ReconcileDataSources | server.py:717-746 | Seeding, then the deletion loop, with both reports |
| AgentSeeds.SeedingIsAPass | server.py:310-354 | For distinct names, a pass updates every row by its own spec only and appends a row for exactly the specs that had none |
| AgentSeeds.TwoPassesSettle | server.py:307-357 | Two passes reach a fixed point in which every spec has a row with its identity and every row of a non-workflow spec is disabled and unscheduled |
| AgentSeeds.EventOnlyStoredIff | server.py:343-354 | After two passes the intraday monitor has event_only stored iff it started with it or started from an empty or missing configuration |
| AgentSeeds.EventOnlyIsNotAdded | server.py:349-354 | Counterexample: a monitor configured with throttle_minutes alone never gets event_only |
| AgentSeeds.OnePassIsEnoughIff | server.py:310-354 | One pass suffices iff every spec that had no row is complete (mode and lifecycle given, switched off unless a workflow, some settings for the intraday monitor) |
| AgentSeeds.FreshCapabilityRunsUntilTheNextPass | server.py:313-345 | Counterexample: an enabled capability is inserted enabled into an empty table and switched off by the second pass |
| AgentSeeds.ShippedNeedsOnePass | src/modules/automation/agent_catalog.py:58-160 | With the shipped catalogue one pass is enough, for any table |
| AgentSeeds.FreshRowIsFinalIff | server.py:313-354 | An inserted row is already what an update would make of it iff its spec is complete |
| AgentSeeds.SeedingFixedPoints | server.py:310-354 | A pass changes nothing iff every spec has a row its update leaves alone |
| AgentSeeds.AfterPass | server.py:310-354 | Where a spec's row is after a pass, and which of the two branches made it |
| AgentSeeds.RowFollowsSpec | server.py:330-345 | Column by column: what an existing row takes over from its spec, and where an empty value leaves the old one or a default |
| AgentSeeds.ConfigIsFilled | server.py:346-354 | An empty or missing configuration becomes the spec's, with event_only for the intraday monitor and nothing else |
| AgentSeeds.NewRowIsSpec | server.py:313-328 | A spec without a row is inserted column by column as it is |
| AgentSeeds.ExistingRowsKeep | server.py:330-354 | Existing workflow rows keep enabled and schedule; a configuration with contents is kept exactly; rows without a spec are untouched |
| AgentSeeds.AgentTable.First | server.py:311 | The query finds the first row with the name |
| AgentSeeds.AgentTable.Refresh | server.py:330-354 | The field assignments on one existing row change that row as specified and no other |
| AgentSeeds.AgentTable.RefreshConfig | server.py:346-354 | On dictionary objects, with the in-place change and the assignment of the same object: what is then written back, given that a value equal to the loaded one is not written |
| AgentSeeds.AgentTable.SeedAgents | server.py:307-357 | The loop over the specs computes the pass |
| OfficialScreen.ScreenMatchesFilters | frontend/src/components/DiscoveryPanel.tsx:142-286 | In every reachable state a shown result answers exactly the current filters (those filled in, all numbers, at least one), `loading` is true iff a request with the current sequence number is in flight, and no error stands beside a result |
| OfficialScreen.LatestRunWins | frontend/src/components/DiscoveryPanel.tsx:238-271 | After a valid run, for replies to it and to any earlier requests in any order: the screen waits for the run's own first reply and then shows exactly that |
| OfficialScreen.RepliesDecide | frontend/src/components/DiscoveryPanel.tsx:261-270 | From any reachable state the first reply to the current sequence number alone decides what is shown |
| OfficialScreen.ReplyStep | frontend/src/components/DiscoveryPanel.tsx:261-270 | A reply to an older request changes nothing that is shown; one to the current request ends the loading |
| OfficialScreen.ExecKeepsInv | frontend/src/components/DiscoveryPanel.tsx:142-286 | The invariant holds after every history |
| OfficialScreen.BuildRequest | frontend/src/components/DiscoveryPanel.tsx:240-251 | The filter loop, left at the first value that is not a number, yields the numbers of all filled filters or nothing |
| OfficialScreen.FilledMeans | frontend/src/components/DiscoveryPanel.tsx:243 | A filter counts iff its text has something besides white space |
| OfficialScreen.RunMeans | frontend/src/components/DiscoveryPanel.tsx:238-260 | A run with a filter that is no number, or with none, is refused with its own message and no result; any other is sent with exactly the numbers of the filled filters |
| OfficialScreen.InputMeans | frontend/src/components/DiscoveryPanel.tsx:142-146 | A toggle keeps the result and clears the error, an edit clears both, a market change clears the result only; all stop the loading |
| OfficialScreen.HistoryDecidesInputs | frontend/src/components/DiscoveryPanel.tsx:273-286 | Over every history each filter holds what was last typed into it, the market is the last one chosen, and the panel is open iff it was toggled an odd number of times |
| OfficialScreen.NothingUntilRun | frontend/src/components/DiscoveryPanel.tsx:142-146 | After an edit or a market change nothing is shown or loaded until the next run, whatever replies arrive |
| OfficialScreen.OfficialScreenPanel.constructor | frontend/src/components/DiscoveryPanel.tsx:142-146 | The panel after its first render |
| OfficialScreen.OfficialScreenPanel.RunOfficialScreen | frontend/src/components/DiscoveryPanel.tsx:238-260 | Bumps the sequence, then refuses with an error or sends the request and loads |
| OfficialScreen.OfficialScreenPanel.ReceiveReply | frontend/src/components/DiscoveryPanel.tsx:261-263 | A reply is shown iff its number is current |
| OfficialScreen.OfficialScreenPanel.ReceiveFailure | frontend/src/components/DiscoveryPanel.tsx:264-271 | A failure is shown, and the result dropped, iff its number is current |
| OfficialScreen.OfficialScreenPanel.ToggleOfficialScreen | frontend/src/components/DiscoveryPanel.tsx:273-278 | Toggling invalidates requests in flight and keeps the result |
| OfficialScreen.OfficialScreenPanel.UpdateOfficialFilter | frontend/src/components/DiscoveryPanel.tsx:280-286 | An edit invalidates requests in flight and drops the result |
| OfficialScreen.OfficialScreenPanel.SetMarket | frontend/src/components/DiscoveryPanel.tsx:142-146 | A market change invalidates requests in flight and drops the result |
| Signals.ComparisonIsAnOrder | frontend/src/pages/Opportunities.tsx:137-155 | shouldReplacePrimary is a strict weak order whose ties agree in every key, identity included |
| Signals.CompareTwo | frontend/src/pages/Opportunities.tsx:137-155 | Asymmetric, and two signals tie iff they agree in status, action, version, rank and identity |
| Signals.CompareThree | frontend/src/pages/Opportunities.tsx:137-155 | Negatively transitive, so the comparator handed to the sort is consistent |
| Signals.PreferredMeans | frontend/src/pages/Opportunities.tsx:129-155 | For any two signals: active before others, then buy or add before hold before watch before the rest, then the newer rankers, then the higher value by which each is ranked, then the smaller identity |
| Signals.TextBelowMeans | frontend/src/pages/Opportunities.tsx:154 | String order: after a common prefix the first string ends or has the smaller character |
| Signals.IdentityMeans | frontend/src/pages/Opportunities.tsx:151 | An identity is strategy, instrument or symbol, and snapshot or else candidate |
| Signals.GroupKeyMeans | frontend/src/pages/Opportunities.tsx:449 | The group key is market, by default Taiwan's, and instrument or symbol |
| Signals.LeaderIsMaximal | frontend/src/pages/Opportunities.tsx:452-458 | The one-pass fold picks a member that no other member should replace |
| Signals.PresentedGroups | frontend/src/pages/Opportunities.tsx:446-480 | The groups partition the items with multiplicity, each is led by a maximal member, and none comes before one whose leader should replace its own |
| Signals.ArrivalOrderDoesNotMatter | frontend/src/pages/Opportunities.tsx:446-480 | With distinct identities any arrival order gives the same groups, with the same leaders, in the same order |
| Signals.LeaderIsUnique | frontend/src/pages/Opportunities.tsx:137-155 | With distinct identities the leader of a group does not depend on the order of its members |
| Signals.MembersCount | frontend/src/pages/Opportunities.tsx:448-455 | A group holds each item with its key as often as it arrived, and no other |
| Signals.AddRow | frontend/src/pages/Opportunities.tsx:448-459 | One more row changes only the group of its key |
| Signals.GroupItems | frontend/src/pages/Opportunities.tsx:446-480 | The loop over the insertion-ordered map, and the sort, compute the groups |
| ResponseWrapper.StreamsPassThrough | src/web/response.py:17-49 | Event streams and traffic outside /api/ are emitted message for message |
| ResponseWrapper.WrappedMeans | src/web/response.py:17 | Exactly the HTTP requests whose path starts with /api/ are looked at |
| ResponseWrapper.OutsideApi | src/web/response.py:17-19 | All other traffic is emitted as it is, well-formed or not |
| ResponseWrapper.EventStreamMeans | src/web/response.py:33-36 | A response is an event stream iff some content type, in any case, contains text/event-stream |
| ResponseWrapper.JsonMeans | src/web/response.py:52-60 | A response counts as JSON iff its first content type contains application/json |
| ResponseWrapper.PayloadInOrder | src/web/response.py:43-58 | The body bytes are joined in the order in which they were sent |
| ResponseWrapper.OthersAreDropped | src/web/response.py:28-43 | Messages of other types are dropped in every mode |
| ResponseWrapper.SilenceIsAnEmptyResponse | src/web/response.py:21-64 | An application that sends nothing is answered by an empty response with status 200 |
| ResponseWrapper.StreamsAreNotDelayed | src/web/response.py:33-41 | At every moment of an event stream everything received has been sent on |
| ResponseWrapper.RawResponsesKeepEverything | src/web/response.py:58-71 | A well-formed response that is not enveloped comes out well-formed with the same status, headers and total bytes |
| ResponseWrapper.JsonIsEnveloped | src/web/response.py:133-144 | A JSON response becomes one start and one body: same status, same header names and values, except that every Content-Length is the decimal length of the new body, which is the encoded envelope |
| ResponseWrapper.PlainDataArrives | src/web/response.py:108-110 | A 2xx JSON response that is not an object with success is sent as a success with code 0, empty message and exactly its JSON value as data |
| ResponseWrapper.DataReadsBack | src/web/response.py:108-110 | If the text that is sent reads back, its data is exactly what the application sent |
| ResponseWrapper.ExplicitSuccessArrives | src/web/response.py:75-94 | A response that says success: its data is kept, or else all its other fields are; code 0 |
| ResponseWrapper.ExplicitFailureArrives | src/web/response.py:78-100 | A 2xx response that says failure: its code if that is a number but 0, else 1; its message, else failed; null data |
| ResponseWrapper.ErrorsArrive | src/web/response.py:111-131 | Every response outside 2xx: failure, null data, the code of the detail, else the status, else 1, whichever comes first and is not 0; the message is the detail's text, message, detail, or JSON text |
| ResponseWrapper.FalsyValues | src/web/response.py:76 | The JSON values that count as false |
| ResponseWrapper.HonestIff | src/web/response.py:135-144 | Content lengths (section 8.6 of RFC 9110) are right in the output iff the response was enveloped or they were right in the input |
| ResponseWrapper.ChunksDoNotMatter | src/web/response.py:39-58 | How a response was cut into chunks does not show in the output, except for event streams |
| ResponseWrapper.RestIsBuffered | src/web/response.py:28-58 | Any other response is answered from its status, headers and joined bytes alone |
| ResponseWrapper.EnvelopesAreRegular | src/web/response.py:73-131 | For every status and every JSON value: success iff code 0, success implies an empty message, failure implies null data |
| ResponseWrapper.RewrapIsIdentityIff | src/web/response.py:73-107 | Under a 2xx status an envelope is wrapped to itself iff it is neither a success with null data nor a failure with an empty message |
| ResponseWrapper.LossyRewraps | src/web/response.py:87-100 | Counterexamples: a null becomes an object that holds it; an empty failure gets the message failed |
| ResponseWrapper.RewrapErrorIff | src/web/response.py:111-131 | Under an error status an envelope is wrapped to itself iff it is a failure with a message (given that dumps never returns an empty text) |
| ResponseWrapper.WrappingSettles | src/web/response.py:73-107 | Under a 2xx status the second wrapping reaches a fixed point, for every JSON value |
| ResponseWrapper.DoubleWrappingIff | src/web/response.py:16-144 | For whole message streams: a second middleware emits what the first did iff the envelope is not one of the two lossy kinds (given that the two envelopes can be read back) |
| ResponseWrapper.NullResponseDiffers | src/web/response.py:73-144 | Counterexample for every codec that reads it: the JSON response null |
| ResponseWrapper.NullResponseDiffersTwice | src/web/response.py:16-144 | The same with a concrete codec, request and header |
| ResponseWrapper.ResponseWrapperCall.constructor | src/web/response.py:21-26 | The variables of a call before the first message |
| ResponseWrapper.ResponseWrapperCall.CaptureSend | src/web/response.py:28-43 | The capture of one message, with the header loop that stops at the first event-stream type |
| ResponseWrapper.ResponseWrapperCall.FindContentType | src/web/response.py:52-56 | The value of the first content-type header, or the empty string |
| ResponseWrapper.ResponseWrapperCall.RewriteHeaders | src/web/response.py:136-141 | The header loop changes exactly the content lengths |
| ResponseWrapper.ResponseWrapperCall.FinishCall | src/web/response.py:47-144 | What is sent once the application has returned, in each of the modes |
| ResponseWrapper.ResponseWrapperCall.Call | src/web/response.py:16-144 | The whole call sends what the laws above speak of |
| Cron.ParsePrintTime | frontend/src/pages/Agents.tsx:89-124 | Daily and weekday forms survive printing and parsing, for all integers as hour and minute |
| Cron.ParsePrintInterval | frontend/src/pages/Agents.tsx:98-127 | An interval form survives iff it is not zero; zero comes back as 30 |
| Cron.NormaliseIdempotent | frontend/src/pages/Agents.tsx:89-133 | Printing what was parsed is an idempotent normaliser on every string |
| Cron.CustomTextIsKept | frontend/src/pages/Agents.tsx:93-129 | Text read as free cron text is printed back unchanged |
| Cron.PrintedFormIsStable | frontend/src/pages/Agents.tsx:89-133 | Every printed form is a fixed point of the normaliser, also when it holds times that are not numbers |
| Cron.SavingKeepsFields | frontend/src/pages/Agents.tsx:89-133 | Opening and saving a schedule keeps its five fields iff it is an interval in plain decimal, not zero and unrestricted, or a time in plain decimal without day of month or month, or read as neither |
| Cron.KindOfFields | frontend/src/pages/Agents.tsx:93-112 | The conditions on the fields under which the parser reads an interval, a time, or neither |
| Cron.ClockForm | frontend/src/pages/Agents.tsx:109 | Times are written HH:MM |
| Cron.PrintDefaults | frontend/src/pages/Agents.tsx:119-129 | What is printed for forms without a time, an interval or a text |
| Cron.MissingPartsAreNaN | frontend/src/pages/Agents.tsx:119-124 | A part of a time that is missing or no number is printed as NaN |
| Cron.ListIsReadAsNumber | frontend/src/pages/Agents.tsx:105-112 | A list of minutes such as 0,30 is read as its first number |
| Cron.IntradayScheduleIsWidened | src/modules/automation/agent_catalog.py:75 | Counterexample: the shipped schedule of the intraday monitor loses its hours and weekdays |
| Cron.EmptyScheduleIsReplaced | frontend/src/pages/Agents.tsx:90 | An empty schedule is saved as daily at 15:30 |
| Cron.ParseTimeLine | frontend/src/pages/Agents.tsx:105-124 | How a printed time is read back, also when hour or minute is not a number |
| Cron.ParseIntervalLine | frontend/src/pages/Agents.tsx:98-127 | How a printed interval is read back |
| Text.ParsePrintedInt | frontend/src/pages/Agents.tsx:99-124 | parseInt undoes decimal printing, with and without padding to two places, for every integer |
| Text.PlainDecimalIff | frontend/src/pages/Agents.tsx:99-127 | Exactly the plain decimals (0, or an optional minus sign, a digit 1-9 and further digits) are printed back as parseInt read them |
| Text.ParseIntReads | frontend/src/pages/Agents.tsx:99-107 | parseInt skips white space, takes a sign, and reads digits up to the first other character |
| Text.NotANumber | frontend/src/pages/Agents.tsx:99-107 | Text without a digit after white space and sign is no number |
| Slug.SlugIsOnePass | frontend/src/pages/AnalysisDetail.tsx:69-78 | The chain of rewrites equals a single pass that joins the runs of word characters by single hyphens |
| Slug.SlugShape | frontend/src/pages/AnalysisDetail.tsx:69-78 | A slug has only word characters and hyphens, none leading, trailing or doubled |
| Slug.SlugIdempotent | frontend/src/pages/AnalysisDetail.tsx:69-78 | Slugging a slug changes nothing |
| Slug.FixedPointsAreSlugs | frontend/src/pages/AnalysisDetail.tsx:69-78 | What is left alone is a slug, and every slug without capitals is left alone |
| Slug.MarkersDoNotMatter | frontend/src/pages/AnalysisDetail.tsx:69-78 | Two texts that differ only in emphasis markers, tildes and hashes have the same slug |
| Slug.MarkersAre | frontend/src/pages/AnalysisDetail.tsx:73 | The markers are asterisk, underscore, backtick, hash and tilde |
| Slug.SlugAlphabet | frontend/src/pages/AnalysisDetail.tsx:75 | A slug has digits, lower-case ASCII letters, Chinese characters and hyphens only |
| Slug.PlainTextIsDashed | frontend/src/pages/AnalysisDetail.tsx:69-78 | Words of such characters with single spaces between them are kept whole and joined by hyphens |
| Slug.CaseDoesNotMatter | frontend/src/pages/AnalysisDetail.tsx:72 | Upper and lower case make no difference |
| Slug.PunctuationVanishes | frontend/src/pages/AnalysisDetail.tsx:73-75 | Any other ASCII character may be left out without a trace |
| Slug.HeadingPattern | frontend/src/pages/AnalysisDetail.tsx:95 | A line is a heading iff the pattern matches it in some way, and its body is that of the first match in the order of backtracking: most space, then shortest body |
| Slug.EmphasisIs | frontend/src/pages/AnalysisDetail.tsx:97 | A listed title leaves out asterisks, underscores and backticks |
| Slug.HeadingLine | frontend/src/pages/AnalysisDetail.tsx:95-97 | What the heading pattern matches is the line without white space and hashes around it |
| Slug.EntryAnchors | frontend/src/pages/AnalysisDetail.tsx:92-101 | The link of an entry is the slug of its shown title and of the whole line, whatever the lazy pattern chose |
| Slug.ParseHeadings | frontend/src/pages/AnalysisDetail.tsx:92-101 | The loop lists the entries of all heading lines in order, each linking to the slug of its title |
| Slug.RenderedHeadingIsLinked | frontend/src/pages/AnalysisDetail.tsx:219-229 | A rendered heading that agrees with a listed one up to markers has the id the table of contents links to |
| TokenStream.BatchingRefinesEager | frontend/src/components/ChatWidget.tsx:145-164 | Over all interleavings of tokens, frames, tool starts and resets, the shown text is a prefix of what eager rendering shows, equal to it whenever no frame is pending, and the pending frame brings it up to date |
| TokenStream.ShownWasEager | frontend/src/components/ChatWidget.tsx:145-164 | The shown text is what eager rendering showed at some moment since the last clearing |
| TokenStream.ShownOnlyGrows | frontend/src/components/ChatWidget.tsx:145-164 | Between two clearings the shown text only grows |
| TokenStream.ChatStream.PushToken | frontend/src/components/ChatWidget.tsx:145-153 | Appends to the buffer and requests a frame unless one is pending |
| TokenStream.ChatStream.RunFrame | frontend/src/components/ChatWidget.tsx:148-151 | A frame shows the buffer as it is then, and clears the ref |
| TokenStream.ChatStream.StartTool | frontend/src/components/ChatWidget.tsx:632-638 | A tool start clears buffer and text without cancelling the frame |
| TokenStream.ChatStream.ResetStream | frontend/src/components/ChatWidget.tsx:155-164 | A reset clears both and cancels the frame |
| Fences.SafeTextIsBalanced | frontend/src/components/ChatWidget.tsx:78-81 | The safe text extends the streamed one, has an even number of fences, is the streamed text iff that was balanced, and is not changed by another pass |
| Fences.ClosingAddsOneMatch | frontend/src/components/ChatWidget.tsx:80 | Appending a newline and a fence adds exactly one match, whatever the text ends with |
| Fences.ScannerCountsRuns | frontend/src/components/ChatWidget.tsx:79 | The left-to-right scanner finds n / 3 fences in every run of n backticks and no other |
| Fences.MatchesAcrossNewline | frontend/src/components/ChatWidget.tsx:79 | No match spans a newline: the counts on its two sides add up |
| LoggerMap.MapLoggerName | frontend/src/lib/logger-map.ts:63-72 | For every order of the keys: the label of the longest key that is a prefix of the name, or the name when there is none or its label is empty; nothing for no name |
| LoggerMap.BestIsUnique | frontend/src/lib/logger-map.ts:66-70 | Two longest prefixes of one name are the same key, so the order of the keys cannot matter |

## Left out

- Rendering, dialogs, charts, share cards, themes, the network, database sessions, schedulers and logging: input and output of the models here. Replies, rows and presets are arbitrary parameters.
- Floating point: numbers are exact reals, so NaN, infinities and representation error are not modelled; a missing rank is an explicit minus infinity. Math.round rounds halves up, also below zero, as in JavaScript.
- Strings are sequences of characters, not UTF-16 units. Lower-casing is arbitrary for non-ASCII letters in `Slug` and ASCII only in `Signals`; lower-casing that depends on neighbouring letters (the Greek final sigma) is not modelled.
- SelfCheck: a worker's reply and its next claim are two events although the program runs them without a pause, so the theorems cover more schedules than can happen. The notification switch, grouping by category and the progress figures are not modelled.
- Stocks: combining quotes for several requests, price alerts, k-line summaries and the suggestion filter. With a market filter the watchlist shows a part of the displayed order; only the whole order is modelled. A reload of the list in the middle of a drag is not modelled. The drag state machine of positions is the one of the watchlist and is not repeated; its preview is.
- Sorting: the library's stable sort is an insertion sort here, which gives the same result for a consistent comparator.
- Data sources and agents: a query without an order is taken to find the first row by id. Automatic flushing before each query is assumed, so rows added earlier in a pass are found. Of the object mapper's change tracking the model has the comparison of an attribute with its loaded value, where it matters (`AgentSeeds.AgentTable.RefreshConfig`); that filling an empty configuration also changes the specification's own dictionary in memory is not modelled.
- Data sources: a configuration is one opaque value; the session that the seeding opens when it is called alone is not modelled.
- DiscoveryPanel: the limit of 20 that is sent along with every request.
- Opportunities: strategy names, source agents, the market-scan flag and the top score of a group.
- ChatWidget: the tool label, the plan, task recovery and approvals, most of whose behaviour is on the server.
- ResponseWrapper: JSON text, its encoding, and int() and str() of values that are not plain are abstract functions; objects are maps without key order. A content type that is not UTF-8, an exception of the application, and errors of json.loads other than ValueError are not modelled. Messages of other types are dropped, as in the code.
- AnalysisDetail: rendered headings are compared by their plain text; a heading with links or images renders text that differs by more than markers and is outside `Slug.RenderedHeadingIsLinked`.
- Cron: the default branch of the printer (Agents.tsx:130-131) cannot be reached from the modelled kinds of form.
- Ranking and replay scripts, price alerts, paper trading, the agent scheduler and the assistant runtime are not part of this model.
