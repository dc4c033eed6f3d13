# KeepUp client core in Dafny

KeepUp is a habit tracker whose tasks, completions and rewards live in a per-user ledger contract.
The browser client reads that ledger and derives its views from it. It also keeps two local
annotation stores, one for task categories and one for completion proofs, and it guards the ledger
writes. This project models that client logic and proves its properties:

- `Constants` gives the day number used everywhere: the floor of the clock in milliseconds divided by 86,400,000.
- `Categories` holds the six task categories and their display configuration, plus the local
  store that maps a task id to a category.
- `ProofStore` is the local completion-proof store, keyed by task id and then by calendar date.
- `RewardHistory` decodes the `RewardClaimed` logs, orders them newest day first, and totals
  them. It also models the hook's fetch lifecycle, including how the results of a stale fetch are
  suppressed.
- `Rewards` covers the predicted pending reward, the claim button guard and the claim handler.
- `Tasks` covers:
  - decoding the ledger's task list;
  - the active view and the category-filtered view;
  - the completion reads and the completed-today set;
  - readiness checks and button disable rules;
  - the in-flight lock of the complete and remove handlers;
  - the add handler, which tags the new task with its category.
- `Utils` shortens an address for display.

Helper modules:

- `Options`: an option type.
- `Seqs`: filter.
- `StableSort`: a stable insertion sort, ordered by a key from largest to smallest. It stands in for
  `Array.prototype.sort`, which is stable.
- `TaskKeys`: the decimal string of a bigint task id, which the stores use as their key.
- `LocalStorage`: a stored item is absent, unparseable or parsed. Reading an absent or unparseable
  item gives the empty value. A write that the browser refuses is swallowed.
- `JsString`: `String.prototype.trim` over the ECMAScript white-space and line-terminator set.
- `Transactions`: what a submitted write can come back as, and the notices a handler shows.

Asynchronous handlers are split at their `await` points:

- a `Begin…` method runs up to the write submission;
- a `Finish…` method takes what the wallet and the chain returned (a thrown error, a hash, a
  missing public client, a receipt) as parameters.

React state that the source updates in place becomes a class: `CategoryStore`, `ProofStore`,
`RewardHistoryHook` (with one `Fetch` per effect run, holding its `cancelled` flag) and `TaskPage`.
The scenario methods at the end of each module drive these classes through a sequence of calls and
state the outcome.

## Model

| member | source | states |
|---|---|---|
| Constants.UnixDay | src/lib/constants.ts:3-5 | the day number of a clock reading is the unique `d` with `d·86400000 <= ms < (d+1)·86400000`, and it is non-negative for non-negative clocks |
| Constants.UnixDayUnique | src/lib/constants.ts:4 | any day whose window contains the clock reading is the computed one |
| Constants.UnixDayMonotonic | src/lib/constants.ts:4 | a later clock never gives an earlier day |
| Constants.UnixDayConstantInWindow | src/lib/constants.ts:4 | every millisecond of a day's window maps to that day (truncation, not rounding) |
| Constants.UnixDayStepsAtBoundary | src/lib/constants.ts:4 | the last millisecond of a day and the first of the next differ by exactly one day |
| Categories.ConfigOf | src/lib/categories.ts:21-64 | each category's configuration carries that category as its id |
| Categories.AllCategoriesOnePerValue | src/lib/categories.ts:66 | the list of all categories holds exactly one configuration per category, six in all |
| Categories.GetCategoryConfig | src/lib/categories.ts:118-121 | no category gives no configuration; a category gives the configuration with that id, which is one of the listed ones |
| Categories.CategoryOf | src/lib/categories.ts:76-80 | a task has a category exactly when its decimal id is a key of the mappings, and then it has that key's value |
| Categories.CategoryStore.Mappings | src/lib/categories.ts:99-106 | the parsed stored dictionary, or the empty one when nothing is stored or the text does not parse |
| Categories.CategoryStore.Get | src/lib/categories.ts:76-80 | the lookup reads the stored mappings, or empty mappings when nothing or something unparseable is stored |
| Categories.CategoryStore.Set | src/lib/categories.ts:83-88 | the stored item becomes the old mappings updated at the task's key. Afterwards the task has the category and every other id keeps its own. A refused write leaves the mappings unchanged |
| Categories.CategoryStore.Remove | src/lib/categories.ts:91-96 | the stored item becomes the old mappings without the task's key. Afterwards the task has no category and every other id keeps its own |
| Categories.LastWriteWins | src/lib/categories.ts:83-88 | tagging a task twice leaves the second category |
| Categories.SetLeavesOtherIds | src/lib/categories.ts:83-88 | tagging one task does not change another task's category |
| Categories.CorruptStoreIsEmpty | src/lib/categories.ts:99-106 | an unparseable store reads as empty mappings, and tagging then starts a fresh mapping |
| LocalStorage.Load | src/lib/categories.ts:99-106 | a parsed item yields its value, and an absent or unparseable one yields the empty value |
| LocalStorage.Save | src/lib/categories.ts:109-115 | a permitted write stores the value so that it reads back, and a refused write leaves the item as it was |
| TaskKeys.DecimalString | src/lib/categories.ts:77 | the decimal string is non-empty and starts with `-` exactly when the number is negative |
| TaskKeys.DecimalStringInjective | src/lib/categories.ts:77 | distinct ids have distinct decimal strings, so two tasks never share an entry |
| TaskKeys.DistinctIdsDistinctKeys | src/lib/ipfsService.ts:81 | distinct bigint ids give distinct store keys |
| ProofStore.Lookup | src/lib/ipfsService.ts:110 | a date has a proof exactly when it is one of the table's dates, and that proof is stored under it |
| ProofStore.Put | src/lib/ipfsService.ts:89-93 | the table grows by at most one entry; when it grows, the old entries are kept and the new date and proof are appended last |
| ProofStore.PutLookup | src/lib/ipfsService.ts:89-93 | after storing a proof under a date, that date yields the new proof and every other date yields what it did before |
| ProofStore.PutDates | src/lib/ipfsService.ts:89-93 | storing under an existing date keeps the dates in order, and a new date is appended last |
| ProofStore.PutDistinct | src/lib/ipfsService.ts:89-93 | storing keeps the dates of a table distinct |
| ProofStore.DateKey | src/lib/ipfsService.ts:109 | a missing or empty date means today, and any other date is used as given |
| ProofStore.ProofStore.Proofs | src/lib/ipfsService.ts:57-64 | the parsed stored dictionary, or the empty one when nothing is stored or the text does not parse |
| ProofStore.ProofStore.constructor | src/lib/ipfsService.ts:57-64 | a store built from a parsed object, whose day tables repeat no date as a JSON object cannot, starts with every table's dates distinct |
| ProofStore.ProofStore.AddTaskProof | src/lib/ipfsService.ts:76-96 | the stored item becomes the mappings with the task's table updated at today's date. The new proof reads back for today, other tasks are unchanged, and each task still has at most one proof per date |
| ProofStore.ProofStore.GetTaskProof | src/lib/ipfsService.ts:99-111 | an unknown task gives nothing; otherwise the proof stored under the given date, or under today when no date is given |
| ProofStore.ProofStore.GetAllTaskProofs | src/lib/ipfsService.ts:114-122 | an unknown task gives no proofs; otherwise exactly the stored proofs, as a permutation, newest timestamp first |
| ProofStore.ProofStore.RemoveTaskProofs | src/lib/ipfsService.ts:125-130 | the stored item becomes the mappings without the task, other tasks keep their tables, and each task still has at most one proof per date |
| ProofStore.SameDayOverwrites | src/lib/ipfsService.ts:89-93 | a second proof on the same day replaces the first and the table does not grow |
| ProofStore.FirstProofOfTask | src/lib/ipfsService.ts:76-96 | the first proof added for a task, on any prior store, makes that task's whole list exactly that proof |
| StableSort.SortDescending | src/hooks/useRewardHistory.ts:47 | sorting keeps the length and is a permutation |
| StableSort.SortIsDescending | src/hooks/useRewardHistory.ts:47 | sorting orders the elements by key, largest first |
| StableSort.SortIsStable | src/hooks/useRewardHistory.ts:47 | elements with equal keys keep their relative order |
| RewardHistory.DecodeLog | src/hooks/useRewardHistory.ts:41-46 | missing event arguments decode as 0 and present ones are kept; the hash is carried over |
| RewardHistory.DecodeLogs | src/hooks/useRewardHistory.ts:40-46 | one entry per log, each the decoding of the log at the same index |
| RewardHistory.ResolveLogs | src/hooks/useRewardHistory.ts:40-47 | the history is a permutation of the decoded logs, ordered by day number from newest to oldest |
| RewardHistory.ResolveKeepsLogOrderWithinDay | src/hooks/useRewardHistory.ts:47 | claims of the same day stay in the order the logs returned them |
| RewardHistory.TotalConcat | src/hooks/useRewardHistory.ts:71-73 | the total of two histories joined is the sum of their totals |
| RewardHistory.TotalIndependentOfOrder | src/hooks/useRewardHistory.ts:71-73 | two histories that are permutations of each other have the same total |
| RewardHistory.TotalOfResolved | src/hooks/useRewardHistory.ts:40-73 | the lifetime total of the resolved history is the total of the decoded logs |
| RewardHistory.OrderingExample | src/hooks/useRewardHistory.ts:47 | claims on days 3, 1 and 5 are listed as 5, 3, 1 |
| RewardHistory.RewardHistoryHook.TotalRewardsClaimed | src/hooks/useRewardHistory.ts:71-73 | an empty history totals zero |
| RewardHistory.RewardHistoryHook.Render | src/hooks/useRewardHistory.ts:23-28 | with unchanged dependencies nothing happens. Otherwise the previous run is cancelled, and a fresh fetch starts and loading begins exactly when client, contract and user are all present |
| RewardHistory.RewardHistoryHook.Unmount | src/hooks/useRewardHistory.ts:64-66 | the cleanup cancels the live fetch and changes nothing visible |
| RewardHistory.RewardHistoryHook.Refetch | src/hooks/useRewardHistory.ts:69 | the refresh counter goes up by one and nothing else changes |
| RewardHistory.RewardHistoryHook.Settle | src/hooks/useRewardHistory.ts:38-59 | a cancelled fetch changes nothing; otherwise the history becomes the resolved logs, the error clears and loading ends |
| RewardHistory.RewardHistoryHook.Fail | src/hooks/useRewardHistory.ts:51-59 | a cancelled fetch changes nothing; otherwise the error is recorded, loading ends and the history stays |
| RewardHistory.SwitchedAccountKeepsNewHistory | src/hooks/useRewardHistory.ts:23-67 | after an account switch, the new account's history stands even when the old fetch settles later |
| RewardHistory.LateFailureIgnored | src/hooks/useRewardHistory.ts:51-54 | the failure of a superseded fetch records no error |
| RewardHistory.RefetchSameLogs | src/hooks/useRewardHistory.ts:69 | a refetch that returns the same logs gives the same history |
| RewardHistory.DisconnectMidFetchKeepsLoading | src/hooks/useRewardHistory.ts:24-58 | a disconnect while a fetch is in flight cancels it and starts nothing, so loading stays on with an empty history |
| Rewards.PendingReward | src/pages/Rewards.tsx:65-66 | claimed today gives zero; otherwise the floor of `daily·(100+bonus)/100` |
| Rewards.PendingRewardExample | src/pages/Rewards.tsx:66 | a daily reward of 0.05 with a 10% bonus predicts 0.055 |
| Rewards.NoBonusPaysDailyReward | src/pages/Rewards.tsx:66 | without a bonus the prediction is the daily reward |
| Rewards.PendingMonotonicInBonus | src/pages/Rewards.tsx:66 | a larger bonus never predicts less, and the prediction is at least the daily reward |
| Rewards.MultiplyBeforeDividing | src/pages/Rewards.tsx:66 | multiplying before dividing keeps amounts that dividing first would round to zero |
| Rewards.PendingRewardWei | src/pages/Rewards.tsx:61-66 | each missing read counts as zero; with those values, a last claim day equal to today predicts zero and any other predicts the floor of `daily·(100+bonus)/100`; no daily reward predicts zero |
| Rewards.DisableClaim | src/pages/Rewards.tsx:71 | the claim button is enabled exactly when connected, with a deployment, a non-zero pending reward and no claim in progress |
| Rewards.ClaimedTodayDisablesClaim | src/pages/Rewards.tsx:71 | having claimed today disables the claim button |
| Rewards.HandleClaimReward | src/pages/Rewards.tsx:85-108 | no contract does nothing. Otherwise one claim is submitted, and exactly the four user reads are refreshed exactly when the submission and wait did not throw (the daily reward is never refreshed). The notices are the submitted one and then the error one on failure |
| Transactions.WriteToasts | src/pages/Tasks.tsx:128-153 | throwing at submission shows only the error notice; a hash shows the submitted notice, followed by the error notice when the wait throws |
| Transactions.MessageOr | src/pages/Tasks.tsx:152 | an `Error` shows its message, and any other thrown value shows the handler's fallback text |
| Tasks.Coalesce | src/pages/Tasks.tsx:47-50 | the named field wins, then the positional one, then the default |
| Tasks.DecodeTask | src/pages/Tasks.tsx:46-51 | each field is decoded by name, then by position, then defaults to 0, `''` or false |
| Tasks.ChainTasks | src/pages/Tasks.tsx:44-52 | no data gives no tasks; otherwise one decoded task per entry, in ledger order |
| Tasks.ActionableTasks | src/pages/Tasks.tsx:54 | a task is in the view exactly when it is a ledger task and active |
| Tasks.ActionableKeepsLedgerOrder | src/pages/Tasks.tsx:54 | the active view keeps ledger order |
| Tasks.FilteredTasks | src/pages/Tasks.tsx:56-59 | `all` shows every ledger task, inactive ones included; a category shows exactly the tasks stored with that category |
| Tasks.FilteredKeepsLedgerOrder | src/pages/Tasks.tsx:56-59 | the filtered view keeps ledger order |
| Tasks.StatusConfigs | src/pages/Tasks.tsx:61-69 | no address or no contract gives no reads; otherwise one status read per active task, in order |
| Tasks.CompletedTaskIds | src/pages/Tasks.tsx:78-89 | no results give no ids; otherwise exactly the active tasks whose result at the same index is present and equals today |
| Tasks.CompletedAtItsIndex | src/pages/Tasks.tsx:84-85 | a result equal to today marks the task at that index |
| Tasks.OtherDayNeverCounts | src/pages/Tasks.tsx:84 | with distinct ids, a task whose result is missing or any other day is not completed |
| Tasks.CompletedAreActive | src/pages/Tasks.tsx:81-86 | every completed id is an active ledger task's id, and some result was read |
| Tasks.EnsureReady | src/pages/Tasks.tsx:98-114 | ready exactly when connected with a deployment and a contract address; otherwise the wallet notice when disconnected, else the contract notice |
| Tasks.DisableComplete | src/pages/Tasks.tsx:295-297 | the Complete button is enabled exactly for an active task that is not completed today and has no action in flight |
| Tasks.DisableRemove | src/pages/Tasks.tsx:338 | the remove button is enabled exactly for an active task with no action in flight while a deployment exists |
| Tasks.DisableAdd | src/pages/Tasks.tsx:212 | the Add button is enabled exactly when the name is not all white space, the wallet is connected, a deployment exists and no add is in progress |
| Tasks.CompletedTodayDisablesComplete | src/pages/Tasks.tsx:295-297 | a task completed today cannot be completed again |
| Tasks.EnabledAddMeansReady | src/pages/Tasks.tsx:212 | an enabled Add button means a non-blank name, a wallet, a deployment and no add in progress |
| Tasks.FirstNamed | src/pages/Tasks.tsx:141 | the index of the first task with that exact name; no earlier task has it |
| Tasks.TagTarget | src/pages/Tasks.tsx:132-145 | a tag is chosen exactly when a category is selected, the receipt is a success and a refreshed task carries the entered name, and then it is the first such task |
| Tasks.TagLandsOnFirstNamesake | src/pages/Tasks.tsx:141-143 | when an older task has the same name, the tag goes to the older task |
| Tasks.ActionToasts | src/pages/Tasks.tsx:171-204 | the complete handler's and the remove handler's notice texts |
| Tasks.TaskPage.BeginTaskAction | src/pages/Tasks.tsx:159-170 | a failed readiness check shows its notice and submits nothing; otherwise the lock is set to this task and action, and the write is submitted to the contract |
| Tasks.TaskPage.FinishTaskAction | src/pages/Tasks.tsx:171-182 | the lock is cleared on every path; tasks are refreshed exactly when nothing threw; the notices follow the outcome |
| Tasks.TaskPage.BeginAdd | src/pages/Tasks.tsx:116-127 | a blank name does nothing; a failed readiness check shows its notice; otherwise adding starts and the trimmed name is submitted together with the selected category |
| Tasks.TaskPage.FinishAdd | src/pages/Tasks.tsx:128-156 | the chosen tag is written to the category store and nothing else there changes. The input and category clear exactly when nothing threw, and adding ends on every path |
| Tasks.LockHeldUntilSettled | src/pages/Tasks.tsx:296-338 | both of a task's buttons are disabled while its action is in flight and enabled again after it settles |
| Tasks.OverlappingActionsShareOneLock | src/pages/Tasks.tsx:163-181 | with two overlapping actions, the first to settle clears the single lock, re-enabling the second task while its write is still in flight |
| Tasks.DisconnectedNeverSubmits | src/pages/Tasks.tsx:98-104 | without a wallet neither handler submits, and the connect notice is shown |
| Tasks.AddThenTag | src/pages/Tasks.tsx:116-145 | a confirmed add with a selected category tags the first task of that name with that category |
| Utils.FormatAddress | src/lib/utils.ts:8-12 | empty stays empty and fewer than ten characters stay as they are; otherwise the first six characters, `...` and the last four, thirteen in all |
| Utils.FormatAddressIdempotent | src/lib/utils.ts:8-12 | shortening an address that is already short changes nothing |
| JsString.Trim | src/pages/Tasks.tsx:117 | a trimmed name is empty exactly when the input is all white space; otherwise it is the input without its leading and trailing white space and neither starts nor ends with white space |
| JsString.TrimIdempotent | src/pages/Tasks.tsx:126 | trimming twice is trimming once |

## Left out

- `uploadToIPFS` is left out. It is an HTTP upload to a pinning service: network I/O with no client logic beyond building the URL.
- The JSON round trip of both local stores is assumed. A stored value that parses back reads as
  the value written; values that JSON cannot represent are not modelled.
- String lengths are counted in Unicode code points, while the source's `length` and `slice`
  count UTF-16 code units, which differs for characters outside the Basic Multilingual Plane.
- Constants.UnixDay: takes the clock as an integer number of milliseconds, so the
  floating-point division of `Date.now()` is not modelled. The result is exact for every
  integer clock.
- Rewards.PendingRewardWei: does not model `Number(bonusPercent)` losing precision above 2^53;
  the bonus is taken as the exact integer read.
- Object keys inherited from `Object.prototype` (`mappings['constructor']`) are not modelled.
  The stores are plain maps from decimal ids.
- Data that is present but not an array (`Array.isArray` failing in `chainTasks`) is not modelled.
  The task list is either missing or a sequence of entries. Entries that are not objects are not
  modelled either.
- react-query's caching, request coalescing and failure retries, and wagmi's reads, are left out.
  A read is either missing or has returned a value, and that value is a parameter.
- Concurrency is reduced to an interleaving that the scenario methods choose: the stale-fetch
  scenarios in `RewardHistory` and the overlapping handlers in `Tasks`.
- Rendering, class names (`cn`), `formatTokenAmount`, `formatEther`, `formatDate` and the
  disabled state of the text input (src/pages/Tasks.tsx:234) are presentation and are left out.
- The ledger contract itself is left out. Its reads and the outcomes of its writes are parameters.
- Tasks.FinishTaskAction: removing a task does not clear its category or its proofs, because
  the source does not either. The stored entries become orphans.
- The task reconciler has no category breakdown with an uncategorized bucket: the page computes
  no such counts, and the model follows the page. Likewise the reward history is not
  deduplicated by transaction hash, because the hook does not do it.
- `addTaskProof` reads the clock twice, once for the ISO date and once for the timestamp. Both
  values are parameters (`today`, `nowMs`), which the caller may pass independently, so their
  agreement is not modelled. `getTaskProof` reads the clock once, for the date key, and only when
  no date is given; that reading is the `today` parameter.
- A stored blob that parses to something other than a dictionary is not modelled, and neither is a
  stored category string outside the six values. A parsed item always holds a dictionary of known
  categories. The source does not fail closed on either case. A blob that parses to `null` is
  returned as it is by `getCategoryMappings` and `getTaskProofs`, and the next `mappings[id]` or
  `proofs[id]` throws (src/lib/categories.ts:79, 86; src/lib/ipfsService.ts:84). An unknown
  category string reaches the `|| null` fallback of `getCategoryConfig` (src/lib/categories.ts:120).
