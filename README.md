# Offline queue and form logic of the todo app, in Dafny

This project models the offline layer of a React todo client and the decision logic of six of its
components, and proves what they promise.

- **Offline storage** (`OfflineStore`). This is the IndexedDB database with its three object stores:
  `mutations`, `cache` and `projects`. The model is a class whose fields are maps from key to
  record. An `available` flag turns every operation into a no-op when IndexedDB is missing. `getAll`
  lists records in ascending key order, and that order is written out in `KeyOrder`.
- **Offline sync** (`OfflineSync`). While offline, writes are queued. An update or remove of a record
  that so far exists only locally (a negative placeholder id) is folded into its pending create.
  Online, the queue is drained in timestamp order through per-type executors.
- **Task ordering** (`TaskOrdering`). This is the task list's comparator and due-date key. It also
  covers the frozen order kept for two seconds after a completion toggle, and the guards of a
  drag-and-drop reorder.
- **Form logic.** This covers the password rules and submit guards of the change-password form
  (`ChangePassword`), and the six-box two-factor code entry (`TwoFactorVerify`). It also covers the
  swipe gestures of a task row (`SwipeableTask`), and the error translator and errorType styling of
  the login form (`Login`). Last is the add-task bottom sheet (`MobileTaskModal`).

`Wrappers` holds `Option`/`Result`. `Js` holds the JavaScript values a payload may carry, with
`Number()` and `??`. `Text` holds the string routines the code relies on: `trim`, `includes`,
`split`, ASCII lowercasing and decimal parsing.

Parts of the environment become parameters:

- Clock readings and random ids are passed in as parameters.
- Executor success is an `outcome` function.
- `Date.parse` and `localeCompare` are parameters.
- The dates behind the quick-date chips are a `Calendar` value.
- Callback invocations and remote calls are recorded in logs that the methods extend.

## Model

| member | source | states |
|---|---|---|
| KeyOrder.LessTransitive | src/services/offlineStorage.ts:98 | the string-key order used by `getAll` is transitive |
| KeyOrder.LessTotal | src/services/offlineStorage.ts:98 | any two distinct keys are ordered one way or the other |
| KeyOrder.LeastExists | src/services/offlineStorage.ts:98 | a non-empty key set has a least key |
| KeyOrder.Ascending | src/services/offlineStorage.ts:98 | the listing of a key set has one entry per key, all from the set, strictly ascending |
| KeyOrder.AscendingComplete | src/services/offlineStorage.ts:98 | every key of the set appears in its listing |
| KeyOrder.FindLeast | src/services/offlineStorage.ts:98 | the key found by scanning the set is its least key |
| OfflineStore.ApplyPatch | src/services/offlineStorage.ts:141-146 | the merged record keeps its id and timestamp; type and payload come from the update when it has them, otherwise from the record |
| OfflineStore.ListingExact | src/services/offlineStorage.ts:98-100 | `getAll` lists each stored record exactly once, in strictly ascending id order |
| OfflineStore.ProjectsByKey | src/services/offlineStorage.ts:228-231 | clearing and then putting each project leaves every project under its own id |
| OfflineStore.ProjectsByKeyLastWins | src/services/offlineStorage.ts:228-231 | a saved id holds the last project saved with that id |
| OfflineStore.ProjectsByKeyOnlySaved | src/services/offlineStorage.ts:228-231 | only ids of saved projects are present |
| OfflineStore.FindLeastProject | src/services/offlineStorage.ts:248 | the chosen project has the least id of the set |
| OfflineStore.OfflineStorage.constructor | src/services/offlineStorage.ts:18-27 | availability is whether IndexedDB exists; all stores start empty |
| OfflineStore.OfflineStorage.AddMutation | src/services/offlineStorage.ts:65-86 | unavailable: returns `''` and stores nothing; a taken id fails and stores nothing; otherwise the record with the given id and timestamp is added and its id returned |
| OfflineStore.OfflineStorage.GetMutations | src/services/offlineStorage.ts:88-103 | returns every record in ascending id order, or `[]` when unavailable |
| OfflineStore.OfflineStorage.RemoveMutation | src/services/offlineStorage.ts:105-120 | exactly the record with that id is gone; nothing else changes |
| OfflineStore.OfflineStorage.UpdateMutation | src/services/offlineStorage.ts:122-155 | a present record is replaced by its merge with the update; an absent id or an unavailable store changes nothing |
| OfflineStore.OfflineStorage.ClearMutations | src/services/offlineStorage.ts:157-172 | the queue is empty afterwards |
| OfflineStore.OfflineStorage.CacheData | src/services/offlineStorage.ts:174-194 | the entry under the key is replaced by the data with the given timestamp; nothing when unavailable |
| OfflineStore.OfflineStorage.GetCachedData | src/services/offlineStorage.ts:196-214 | returns the stored data, or `null` when the key is absent or storage is unavailable |
| OfflineStore.OfflineStorage.SaveProjects | src/services/offlineStorage.ts:216-236 | the project store becomes exactly the saved projects, keyed by id, the last of a duplicate id winning |
| OfflineStore.OfflineStorage.GetProjects | src/services/offlineStorage.ts:238-253 | lists every stored project once, in ascending id order, or `[]` when unavailable |
| OfflineSync.FindCreate | src/services/offlineSyncService.ts:93-95 | finds the first pending create whose `clientId` is the placeholder id, or reports that none matches |
| OfflineSync.MergeTaskUpdate | src/services/offlineSyncService.ts:98-105 | name, project and due date are overwritten only when given; `completed` only by a boolean; `position` only by a number; every other field is kept |
| OfflineSync.MergeProjectUpdate | src/services/offlineSyncService.ts:128-132 | only `name` (when given) and `position` (when a number) are overwritten; every other field is kept |
| OfflineSync.PlanAppendsOtherwise | src/services/offlineSyncService.ts:86-152 | a record is appended exactly when the id is not a placeholder, the call is a create, or no pending create matches |
| OfflineSync.PlanTargetsPendingCreate | src/services/offlineSyncService.ts:89-148 | coalescing targets a queued create of the placeholder id; updates merge by the task or the project rule, removes discard |
| OfflineSync.QueueMergeEffect | src/services/offlineSyncService.ts:97-108 | a coalesced update rewrites only its target's payload; the queue keeps its size and its other records |
| OfflineSync.QueueDiscardEffect | src/services/offlineSyncService.ts:112-121 | a remove of a pending create deletes exactly that record; the queue shrinks by one |
| OfflineSync.QueueAppendEffect | src/services/offlineSyncService.ts:151-153 | otherwise exactly one record with the given type and payload joins the queue and the others are kept |
| OfflineSync.InsertByTimestamp | src/services/offlineSyncService.ts:183 | insertion keeps the records, adding one |
| OfflineSync.SortByTimestamp | src/services/offlineSyncService.ts:183 | the sort is a permutation of the records read |
| OfflineSync.SortOrdered | src/services/offlineSyncService.ts:183 | the sorted records are in timestamp order, ties keeping their listing order |
| OfflineSync.DrainVisitsAll | src/services/offlineSyncService.ts:179-185 | the drain visits each queued record exactly once, in ascending timestamp order |
| OfflineSync.SyncedOfMembers | src/services/offlineSyncService.ts:186-196 | a record counts as synced exactly when it was visited, has an executor, and that executor succeeded |
| OfflineSync.DrainRemovesExactlySynced | src/services/offlineSyncService.ts:185-202 | after a drain, a record stays queued exactly when it was not synced |
| OfflineSync.OfflineSyncService.constructor | src/services/offlineSyncService.ts:5-17 | starts with the given online status, not syncing, no listeners, executors or events |
| OfflineSync.OfflineSyncService.RegisterMutationExecutor | src/services/offlineSyncService.ts:54-56 | the type now has an executor |
| OfflineSync.OfflineSyncService.GetOnlineStatus | src/services/offlineSyncService.ts:59-61 | returns the online status |
| OfflineSync.OfflineSyncService.Subscribe | src/services/offlineSyncService.ts:64-67 | the callback joins the status listeners |
| OfflineSync.OfflineSyncService.Unsubscribe | src/services/offlineSyncService.ts:66 | the callback leaves the status listeners |
| OfflineSync.OfflineSyncService.NotifyPendingCount | src/services/offlineSyncService.ts:48-51 | every pending-count callback is called once with the number of queued records |
| OfflineSync.OfflineSyncService.SubscribeToPendingCount | src/services/offlineSyncService.ts:70-74 | the callback joins, then all pending-count callbacks are told the current count |
| OfflineSync.OfflineSyncService.UnsubscribeFromPendingCount | src/services/offlineSyncService.ts:73 | the callback leaves the pending-count listeners |
| OfflineSync.OfflineSyncService.GetPendingCount | src/services/offlineSyncService.ts:214-217 | returns the number of queued records |
| OfflineSync.OfflineSyncService.QueueMutation | src/services/offlineSyncService.ts:77-166 | online: `{queued:false, executed:true}` and the queue is untouched; offline: the queue becomes the coalesced or appended one, the count is announced, `{queued:true, executed:false}` |
| OfflineSync.OfflineSyncService.CarryOut | src/services/offlineSyncService.ts:97-153 | carries out a merge, discard or append on the store and announces the new count |
| OfflineSync.OfflineSyncService.SyncPendingMutations | src/services/offlineSyncService.ts:169-211 | offline or already syncing: `(0,0)` and nothing changes; otherwise exactly the synced records are removed, `synced + failed` is the number read, executors are called in drain order, the count is announced once, and syncing ends |
| OfflineSync.OfflineSyncService.DrainAll | src/services/offlineSyncService.ts:179-205 | reads, sorts and drains the queue, then announces the count once |
| OfflineSync.OfflineSyncService.Drain | src/services/offlineSyncService.ts:185-202 | the loop removes exactly the synced records, counts them, and keeps going past failures |
| OfflineSync.OfflineSyncService.Visit | src/services/offlineSyncService.ts:186-201 | a record without an executor fails without a call; with one, it is removed exactly when the executor succeeds |
| OfflineSync.OfflineSyncService.GoOnline | src/services/offlineSyncService.ts:20-25 | status listeners are told `true`; then, unless a drain is under way, exactly the synced records are removed, the counters sum to the records read, the executor calls follow drain order, one count event is sent and syncing ends; during a drain the store, calls, events and syncing flag stay |
| OfflineSync.OfflineSyncService.GoOffline | src/services/offlineSyncService.ts:27-31 | status listeners are told `false` |
| TaskOrdering.DateOnly | src/components/todoList/SortableTaskList.tsx:72 | a value holding a `T` is cut to its first ten characters; any other value is kept |
| TaskOrdering.DueDateSortKey | src/components/todoList/SortableTaskList.tsx:70-75 | no key exactly for a missing or empty value; otherwise the parsed midnight of the date part, or the date text when that does not parse |
| TaskOrdering.TimeOfDayIgnored | src/components/todoList/SortableTaskList.tsx:72-73 | two timestamps on the same date get the same key |
| TaskOrdering.Rank | src/components/todoList/SortableTaskList.tsx:79-88 | the comparator's four groups: open and dated, open and undated, done and dated, done and undated |
| TaskOrdering.Compare | src/components/todoList/SortableTaskList.tsx:78-103 | a lower group sorts first; within a group, by due-date key, then by position |
| TaskOrdering.InsertTask | src/components/todoList/SortableTaskList.tsx:78 | insertion keeps the tasks, adding one |
| TaskOrdering.SortTasks | src/components/todoList/SortableTaskList.tsx:78 | the sorted list is a permutation of the tasks |
| TaskOrdering.SortGroupsTasks | src/components/todoList/SortableTaskList.tsx:77-88 | whatever `localeCompare` does, open tasks come before done ones and dated before undated within each |
| TaskOrdering.CompareAgrees | src/components/todoList/SortableTaskList.tsx:78-103 | for parseable dates the comparator agrees with the order by group, due date and position |
| TaskOrdering.NotAfterTransitive | src/components/todoList/SortableTaskList.tsx:77 | that order is transitive |
| TaskOrdering.SortIsBaseOrder | src/components/todoList/SortableTaskList.tsx:77-103 | when every due date parses, the sorted list is ordered by group, then due date, then position |
| TaskOrdering.FindById | src/components/todoList/SortableTaskList.tsx:110 | finds a task with that id, or reports that none has it |
| TaskOrdering.IdsOf | src/components/todoList/SortableTaskList.tsx:116 | the ids of the shown list, in order |
| TaskOrdering.FrozenOrderIsPermutation | src/components/todoList/SortableTaskList.tsx:106-114 | the frozen order shows each task exactly once |
| TaskOrdering.PermutationKeepsDistinctIds | src/components/todoList/SortableTaskList.tsx:116 | a reordering keeps ids distinct |
| TaskOrdering.IndexOfId | src/components/todoList/SortableTaskList.tsx:157-158 | the first index with that id, or none when no task has it |
| TaskOrdering.DropRequest | src/components/todoList/SortableTaskList.tsx:142-177 | a position update is sent exactly for a task drag between two different shown tasks of the same project; it moves the source to the target's position |
| TaskOrdering.SortableTaskList.constructor | src/components/todoList/SortableTaskList.tsx:26-32 | the refs start empty and no reorder is delayed |
| TaskOrdering.SortableTaskList.CompletionMap | src/components/todoList/SortableTaskList.tsx:42-45 | maps each task id to its completion |
| TaskOrdering.SortableTaskList.Render | src/components/todoList/SortableTaskList.tsx:33-62 | shows a permutation of the tasks: the frozen order after a completion change or while delayed, the base order otherwise; records the completions |
| TaskOrdering.SortableTaskList.ShowOrder | src/components/todoList/SortableTaskList.tsx:37-39 | freezes the last shown order on a completion change, picks the order, and remembers its ids |
| TaskOrdering.SortableTaskList.RunEffect | src/components/todoList/SortableTaskList.tsx:41-62 | on a change, starts the delay and freezes the order; always records the completions |
| TaskOrdering.SortableTaskList.ReorderDelayElapsed | src/components/todoList/SortableTaskList.tsx:55-58 | the delay ends and no timer is pending |
| ChangePassword.HasClass | src/components/ChangePassword.tsx:34-37 | a test holds exactly when some character of the password is in its class |
| ChangePassword.ValidatePasswordStrength | src/components/ChangePassword.tsx:32-47 | each flag holds exactly when its rule does; valid exactly when all five hold |
| ChangePassword.ExtendingKeepsValid | src/components/ChangePassword.tsx:32-47 | adding characters to a valid password keeps it valid |
| ChangePassword.ExampleStrengths | src/components/ChangePassword.tsx:32-47 | one password that passes, and one that fails on length and one that fails on the uppercase rule |
| ChangePassword.Submit | src/components/ChangePassword.tsx:57-98 | each guard rejects exactly its case, in order: empty fields, mismatch, weak password; then no token means a redirect to login with its error text; otherwise the request carries the three fields |
| ChangePassword.SubmitDisabled | src/components/ChangePassword.tsx:189 | disabled exactly while loading or while a typed new password is invalid |
| ChangePassword.FailureMessage | src/components/ChangePassword.tsx:111 | the first non-empty of the GraphQL message and the error message, otherwise `Failed to change password` |
| TwoFactorVerify.JoinLength | src/components/TwoFactorVerify.tsx:40 | the joined code is as long as the filled boxes and holds only digits |
| TwoFactorVerify.FilledAtMost | src/components/TwoFactorVerify.tsx:147 | at most six boxes are filled, and exactly six when none is empty |
| TwoFactorVerify.Digits | src/components/TwoFactorVerify.tsx:55 | removing non-digits leaves only digits, drawn from the text |
| TwoFactorVerify.DigitsConcat | src/components/TwoFactorVerify.tsx:55 | the digits of a joined text are the digits of its parts, in order |
| TwoFactorVerify.DigitsOfChar | src/components/TwoFactorVerify.tsx:55 | one character is kept exactly when it is a digit; with `DigitsConcat` every digit is kept, in order, and nothing else |
| TwoFactorVerify.DigitsOfDigits | src/components/TwoFactorVerify.tsx:55 | a text of digits is kept whole |
| TwoFactorVerify.PasteDigits | src/components/TwoFactorVerify.tsx:55 | all the digits of the paste when it has at most six, otherwise its first six; empty exactly when the paste has no digit |
| TwoFactorVerify.PastedCode | src/components/TwoFactorVerify.tsx:57 | six boxes: the pasted digits, then empty boxes |
| TwoFactorVerify.PastedCodeJoin | src/components/TwoFactorVerify.tsx:57-60 | joining the pasted boxes gives back the pasted digits |
| TwoFactorVerify.TwoFactorVerify.constructor | src/components/TwoFactorVerify.tsx:12-15 | six empty boxes, no error, not loading |
| TwoFactorVerify.TwoFactorVerify.HandleSubmit | src/components/TwoFactorVerify.tsx:67-94 | a code not six long only sets the error; otherwise one request is sent, and success stores the token and the user while failure shows the message (or the fallback) and clears the boxes; loading ends |
| TwoFactorVerify.TwoFactorVerify.HandleChange | src/components/TwoFactorVerify.tsx:24-45 | a value that is not empty or one digit changes nothing; otherwise the box is set and the error cleared with the rest kept, and a digit in the last box completing six submits the code, with `HandleSubmit`'s outcome |
| TwoFactorVerify.TwoFactorVerify.HandlePaste | src/components/TwoFactorVerify.tsx:53-65 | a paste without digits changes nothing; one to five digits fill the boxes from the left and change nothing else; six digits fill them and are submitted, with `HandleSubmit`'s outcome |
| TwoFactorVerify.TwoFactorVerify.VerifyDisabled | src/components/TwoFactorVerify.tsx:147 | disabled exactly while loading or while a box is empty |
| SwipeableTask.Clamp | src/components/todoList/SwipeableTask.tsx:38 | the offset stays within 150 either way and equals the drag inside that range |
| SwipeableTask.ActionWidths | src/components/todoList/SwipeableTask.tsx:75-88 | only one action shows; its width is the size of the offset; the complete action shows exactly for a right swipe |
| SwipeableTask.DueDateOrNull | src/components/todoList/SwipeableTask.tsx:52 | an empty or missing due date is sent as null, any other as itself |
| SwipeableTask.SwipeAction | src/components/todoList/SwipeableTask.tsx:45-57 | past 80 to the right exactly: an update that flips completion and keeps the other fields; past 80 to the left exactly: a remove; the id is `+id` |
| SwipeableTask.ClampKeepsAction | src/components/todoList/SwipeableTask.tsx:38-57 | clamping the drag never changes the request its release makes |
| SwipeableTask.SwipeableTask.constructor | src/components/todoList/SwipeableTask.tsx:16-18 | the row starts at rest |
| SwipeableTask.SwipeableTask.TouchStart | src/components/todoList/SwipeableTask.tsx:26-29 | remembers the start and starts the swipe |
| SwipeableTask.SwipeableTask.TouchMove | src/components/todoList/SwipeableTask.tsx:31-40 | ignored unless swiping; otherwise the offset is the clamped drag |
| SwipeableTask.SwipeableTask.TouchEnd | src/components/todoList/SwipeableTask.tsx:42-61 | issues the action for the offset at release, then resets the row |
| Login.ActualMessage | src/components/Login.tsx:17 | the text before the first colon with its outer whitespace removed: a piece of it with only whitespace around it, and no whitespace at its ends |
| Login.GraphqlMessage | src/components/Login.tsx:39-65 | verbatim wording is kept; the non-nullable error becomes the credentials message; other wording is kept unless rewritten; always the message or one of three canned texts |
| Login.CannedMessage | src/components/Login.tsx:76-106 | a fetch or network error gives the connection message; any result is one of the canned texts |
| Login.MessageRule | src/components/Login.tsx:75-116 | a canned text when a rule matches, otherwise the message itself exactly when it is presentable |
| Login.ErrorMessage | src/components/Login.tsx:11-126 | the branch order: verbatim prefix, GraphQL error, `data.error`, the lowercase rules, a short string, and the fallback text for every error no branch takes |
| Login.MessageEmptyOnlyForEmptyString | src/components/Login.tsx:11-126 | the translated message is empty exactly when the empty string was thrown |
| Login.ErrorTypeAsWritten | src/components/Login.tsx:181-188 | network exactly when the message has `connection`, `network` or `internet`, case-sensitively; otherwise server exactly when it has `server`, `500` or `timeout`; otherwise auth |
| Login.ErrorTypeOf | src/components/Login.tsx:181-188 | the same mapping with the tests made regardless of case |
| Login.ErrorTypeOfIsLowered | src/components/Login.tsx:181-187 | the caseless tests are the written tests applied to the lowercased message |
| Login.Status500Message | src/components/Login.tsx:100-101 | an error message `500` is translated to "Server error. Please try again later." |
| Login.ServerMessagesStyledAsAuth | src/components/Login.tsx:181-187 | as written, the canned server-error and time-out messages are styled as credential errors |
| Login.Status500StyledAsAuth | src/components/Login.tsx:100-101 | as written, an HTTP 500 is styled as a credentials error |
| Login.ServerErrorClassified | src/components/Login.tsx:183 | with the caseless tests, the canned server-error message is styled as a server error |
| Login.ConnectionFailedClassified | src/components/Login.tsx:97 | with the caseless tests, the CORS message is styled as a network error |
| Login.UnableToConnectClassified | src/components/Login.tsx:79 | with the caseless tests, the connection-failure message is styled as a network error |
| Login.Status500StyledAsServer | src/components/Login.tsx:100-101 | with the caseless tests, an HTTP 500 is styled as a server error |
| Login.Submit | src/components/Login.tsx:148-188 | a blank username, then a blank password, is reported with the validation style and stops the request; otherwise the fields are sent as typed, and a rejection shows the translated message styled by `ErrorTypeOf` |
| MobileTaskModal.SubmitRequest | src/components/todoList/MobileTaskModal.tsx:60-67 | no task exactly for a blank name or no project; otherwise the name is `Trim` of the typed name, then the project, and the due date or null |
| MobileTaskModal.ResubmitSameTask | src/components/todoList/MobileTaskModal.tsx:60-67 | filling the form with a task it sent sends that same task |
| Text.Trim | src/components/todoList/MobileTaskModal.tsx:64 | `trim` gives a piece of the text with only whitespace around it and none at its own ends, and is empty exactly for a blank text |
| Text.TrimOfPadded | src/components/todoList/MobileTaskModal.tsx:64 | a text without whitespace at its ends, padded with whitespace, trims back to itself; with `Text.Trim` this fixes the result |
| MobileTaskModal.MobileTaskModal.constructor | src/components/todoList/MobileTaskModal.tsx:17-20 | empty name and date, no project or chip |
| MobileTaskModal.MobileTaskModal.Open | src/components/todoList/MobileTaskModal.tsx:23-27 | an open sheet with a truthy default project selects that project |
| MobileTaskModal.MobileTaskModal.SetName | src/components/todoList/MobileTaskModal.tsx:95 | the name field holds the typed text |
| MobileTaskModal.MobileTaskModal.SelectProject | src/components/todoList/MobileTaskModal.tsx:137 | the selected project is `Number` of the option value |
| MobileTaskModal.MobileTaskModal.ChipClick | src/components/todoList/MobileTaskModal.tsx:45-53 | the active chip switches off and clears the date; another chip becomes the only active one with its date |
| MobileTaskModal.MobileTaskModal.CustomDateChange | src/components/todoList/MobileTaskModal.tsx:55-58 | the typed date becomes the due date and no chip is active |
| MobileTaskModal.MobileTaskModal.DateInputValue | src/components/todoList/MobileTaskModal.tsx:128 | the date field shows nothing while a chip is active |
| MobileTaskModal.MobileTaskModal.AddDisabled | src/components/todoList/MobileTaskModal.tsx:156 | the button is disabled exactly when a submission would be stopped |
| MobileTaskModal.MobileTaskModal.Submit | src/components/todoList/MobileTaskModal.tsx:60-74 | a stopped submission changes nothing; otherwise the task is created, name, date and chip are reset, the project stays, and the sheet is closed once |
| MobileTaskModal.MobileTaskModal.OverlayClick | src/components/todoList/MobileTaskModal.tsx:76-80 | closes only when the click lands on the overlay itself |
| MobileTaskModal.MobileTaskModal.Cancel | src/components/todoList/MobileTaskModal.tsx:149 | closes the sheet |

## Behaviour kept as the code has it

- Offline, `queueMutation` reports `{queued:true, executed:false}` even when storage is unavailable and nothing was stored.
- `subscribeToPendingCount` notifies every pending-count listener, not only the new one.
- Status listeners are told on every online or offline event, even a repeated one.

## Left out

- IndexedDB transactions, request callbacks and promise plumbing are not modelled: each store is a map updated atomically, and opening the database is folded into the `available` flag.
- Interleaving across `await` points is not modelled: `isSyncing` is a plain flag checked on entry to a sequential drain.
- The `window` online/offline listeners, the service-worker message listener and background-sync registration are not modelled; the `GoOnline`/`GoOffline` methods stand for the two events.
- `Date.now()` and `Math.random()` are not modelled: record ids and timestamps are parameters, and their uniqueness is not proved. A clashing id is modelled as the `store.add` error.
- Executor bodies are not visible in the repository, so an executor is only "succeeds or fails", given by an `outcome` function.
- `Date.parse`, `toISOString`, `setDate` and `localeCompare` are foreign routines and become parameters.
- The stores hold whatever the app gives them; payloads are records of JavaScript values (strings, integers, booleans, null, arrays, objects) and numbers are integers, without floating point or NaN arithmetic beyond `Number()` of a string or of an array (through its comma-joined text).
- Touch coordinates are integers; the opacity styling of the swipe actions is left out.
- Strings are sequences of characters: lengths are not UTF-16 code-unit counts, and `toLowerCase` lowercases only ASCII letters.
- `console` logging and the `navigate` redirects are left out; the change-password success path after the request (message, field reset, two-second redirect) is left out.
- `dispatch(setToken)`/`dispatch(setUser)` are recorded as the stored token and user (the form state of `Login`, the `sessionToken` and `sessionUser` fields of `TwoFactorVerify`); the Redux store is not modelled, and the user record is opaque text in `TwoFactorVerify`.
- Focus moves between the code boxes and the Backspace handler only move focus and are left out.
- `getErrorMessage` is modelled on errors whose `message`, `data.error` and GraphQL messages are strings (absent or falsy ones as ""); other shapes of thrown values are `OtherError`.
- The project list's rendering and the `selectedProjectId` display value are left out.
- Login.Submit: styles a rejection with the corrected `ErrorTypeOf`, not the case-sensitive tests of Login.tsx:182-188; for an error `500` it sets the server style where the code sets `auth` (see "## Findings"; `ErrorTypeAsWritten` keeps the code's tests).
- TaskOrdering.SortTasks: `Array.prototype.sort` is modelled as a stable insertion sort. With a `localeCompare` that is not a consistent order, the engine's result depends on its sort algorithm, so `SortGroupsTasks` holds for the insertion sort of the model; for any consistent comparator the stable result is the same.

## Findings

| source | as written | input that shows it | evidently intended | confidence | as-written member | corrected member |
|---|---|---|---|---|---|---|
| src/components/Login.tsx:181-187 | the styling tests look for lowercase words in the translated message, whose canned texts are capitalised | an error with message `500`: it is shown as "Server error. Please try again later.", which holds `Server` but not `server`, so it is styled as a credentials error | an HTTP 500 is styled as a server error | not executed | Login.ErrorTypeAsWritten (Login.Status500StyledAsAuth) | Login.ErrorTypeOf (Login.Status500StyledAsServer) |

`Login.Submit` uses the corrected `Login.ErrorTypeOf`. The canned time-out message "Request timed out. Please try again." is styled as a credentials error both as written and with the caseless tests, because it does not contain `timeout` (`Login.ServerMessagesStyledAsAuth`).
