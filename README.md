# Tab-queue extension: scheduler and redirect classifier

This project models the two pieces of logic in a browser extension that
opens a list of URLs in background tabs, a few at a time, and flags pages
that were redirected away from the requested product.

- **The scheduler** lives in `background.js`. Its state is a primary queue and a retry queue of tasks, a map of active tasks and two counters. Three flags go with them: `paused`, `initialized` and `scheduling`. There is also the set of tabs the content script was injected into.
  - `schedule` opens tabs while fewer than `MAX_CONCURRENT` (2) tasks are active.
  - `startTask` reserves a `pending-<id>` slot while the tab is created.
  - `handleFailure` re-queues a task until it has failed more than `MAX_RETRIES` (2) times.
  - `completeTaskByTab` retires the task of a tab.
  - `restoreState` reloads a stored snapshot and keeps only the active tasks whose tabs are still open.
  - The message listener, the keyboard command and the tab-update listener drive these operations.
- **The redirect classifier** lives in `content.js`. `evaluateWayfair(original, final)` picks one of five ribbons from the tab's final URL and the URL it was opened with. It reads the host name, the `piid` query parameter, the product slug after `/pdp/`, the `.html` suffix and six listing patterns.

## Layout

- `wrappers.dfy` (`Wrappers`): `Option`, with `GetOr` for the `x || default` idiom.
- `scheduling.dfy` (`Scheduling`): the scheduler on values.
  - A `State` datatype and one function per handler.
  - The invariant `Inv` and the task count `Count`.
- `scheduling_proofs.dfy` (`SchedulingProofs`): what each handler keeps and guarantees.
- `background.dfy` (`Background`): the scheduler as the script runs it.
  - The `Scheduler` class has the module-level variables as fields.
  - Its methods update them in place, with the `while` loop of `schedule` and the `for` loop of `restoreState`.
  - Each method is proved to leave exactly the state the matching function of `Scheduling` computes.
  - The handlers (`Schedule`, `CompleteTaskByTab`, the message, command and update handlers) keep `Valid()`. `HandleFailure` and `StartTask` run inside a pass and promise nothing about it. `Restore` establishes it when the snapshot is consistent and no pass was running.
  - `Valid()` means no pass is running, `Inv`, the capacity bound, and the batch size equal to `Count`.
- `strings.dfy` (`Strings`): `indexOf`, `includes`, `endsWith` and `some(includes)`. Each is characterised by where its pattern occurs.
- `redirect.dfy` (`Redirect`): the classifier.
- `redirect_proofs.dfy` (`RedirectProofs`): its decision table and slug facts.

## How the browser is represented

Each browser call becomes an input of the operation that depends on it.

- **Tab creation.** `chrome.tabs.create` becomes `launch: nat -> Option<TabId>`: the outcome of the k-th launch of a scheduling pass, with `None` for a rejected call.
- **Open tabs.** The tab query of `restoreState` becomes the set `live` of open tab ids.
- **Clock.** `Date.now()` becomes `now`, one value per operation.
- **Storage.** `chrome.storage.local.get` becomes a `Snapshot`. A missing field is `None`. The stored task map is given as its `Object.values` in order.
- **Completion.** `completeTaskByTab` takes the first active task, in key order, whose `tabId` matches. Key order is not modelled.
  - The value-level function takes the chosen task as the input `found`. `Finds` says what it may be: none exactly when no active task is on that tab, otherwise one of the active tasks on it.
  - The method picks any such task and returns it.
- **URL parsing.** A `Url` is the URL text together with what `new URL` yields: a host name and the `piid` parameter, or nothing when the constructor throws.
- **Truthiness.** JavaScript truthiness is spelled out.
  - A tab id or start time that is `null` or `0` is falsy (`Truthy`).
  - A piid or slug that is `null` or `""` is falsy (`Present`).
- **Overlapping passes.** All operations are atomic. The `scheduling` flag is modelled as "a nested `schedule` is a no-op".

As written, `background.js`:
- refuses a `START_QUEUE` while tasks are active, rather than releasing them;
- restarts task ids at 1 for every batch;
- does not validate URLs;
- does not schedule from inside `handleFailure`;
- has no confirmation on close, no clear command and no concurrency setting.

`background.js` has no `GET_REDIRECT_INFO` case: the listener sends no
reply (`UnhandledMessageIgnored`). So the callback at content.js:315-319
never receives an answer and draws no ribbon. The classifier is modelled on
its own.

## Model

| member | source | states |
|---|---|---|
| SchedulingProofs.HandleFailureAccounting | background.js:114-127 | `retries` goes up by exactly one and elapsed time is folded into `totalTimeMs` when `startedAt` was truthy. The task is appended to the retry queue iff its new retry count is at most `MAX_RETRIES`, otherwise `failedCount` goes up by one. Nothing else changes |
| SchedulingProofs.HandleFailurePreserves | background.js:114-127 | a failure of a task that is in no collection keeps the invariant and places it in exactly one place (retry queue or failed count), so no retry-queue task has more than `MAX_RETRIES` retries |
| SchedulingProofs.StartTaskOutcome | background.js:94-112 | after `startTask` no placeholder key is left. A launched task is keyed by its id with the new tab id and start time. A failed launch leaves the keys unchanged and goes through `handleFailure` |
| SchedulingProofs.StartTaskGrowsByOne | background.js:94-112 | one start adds at most one key to the active map |
| SchedulingProofs.StartTaskPreserves | background.js:94-127 | starting a task that is in no collection keeps the invariant and counts it exactly once |
| SchedulingProofs.DequeueFacts | background.js:83 | the task taken is the head of the primary queue while it is non-empty, otherwise the head of the retry queue. The pending sequence (primary then retry) loses its first element |
| SchedulingProofs.DequeueKeepsInv | background.js:83 | taking the next task keeps the invariant and leaves that task in no collection |
| SchedulingProofs.StepPreserves | background.js:79-85 | one turn of the dispatch loop keeps the invariant and the task count |
| SchedulingProofs.PassPreserves | background.js:79-85 | the whole dispatch loop keeps the invariant and the task count |
| SchedulingProofs.PassFrame | background.js:79-85 | the dispatch loop changes only the queues, the active map and the failed count, and never lowers the failed count |
| SchedulingProofs.PassBounded | background.js:79-84 | the loop never takes the active map above `MAX_CONCURRENT` keys, placeholders included. When it stops, the map is full or both queues are empty |
| SchedulingProofs.PassNoPlaceholders | background.js:94-112 | a pass that starts with no placeholder keys ends with none |
| SchedulingProofs.PassFifo | background.js:79-85 | the tasks dispatched by a pass are a prefix of primary-then-retry order, and what is left of the primary queue is a suffix of it |
| SchedulingProofs.PassAvoidsTab | background.js:79-112 | when no launch returns tab `t`, a pass puts no task on `t` |
| SchedulingProofs.SchedulePreserves | background.js:74-90 | `schedule` is the identity unless `initialized && !paused && !scheduling`. It keeps the invariant, the task count and the capacity bound. It changes only the queues, the active map and the failed count, and leaves `scheduling` as it was |
| SchedulingProofs.PauseStopsDispatch | background.js:179-183 | PAUSE sets only `paused`, answers "paused", and every later `schedule` is a no-op |
| SchedulingProofs.CompletePreserves | background.js:131-145 | completing the task found on tab `t` removes exactly its key, adds one to `completedCount`, drops `t` from the injected tabs, and keeps the invariant and the task count |
| SchedulingProofs.CompleteByTabPreserves | background.js:131-145 | `completeTaskByTab` followed by its `schedule` keeps the invariant, the count and the capacity bound, and completes one task iff one was on the tab |
| SchedulingProofs.RepeatDoneIsNoOp | background.js:131-145 | after a TASK_DONE for tab `t`, no active task is on `t`, so a repeated TASK_DONE from `t` changes nothing. This assumes only the completed task was on `t` and no launch reuses `t`; the invariant does not rule out two active tasks on one tab |
| SchedulingProofs.BatchFacts | background.js:159-166 | the batch has one task per URL in input order, with ids 1..n, no retries, no tab and no start time |
| SchedulingProofs.StartQueueFacts | background.js:153-177 | START_QUEUE is refused with "Tasks already running" and no change while the active map is non-empty. Otherwise the state is reset to the new batch, unpaused, and the task count becomes the batch size, with the invariant and the capacity bound |
| SchedulingProofs.StatusCounts | background.js:192-201 | STATUS counts the active keys that are not placeholders. Under the invariant the five numbers add up to the task count |
| SchedulingProofs.OnMessagePreserves | background.js:147-204 | every message keeps the invariant and the capacity bound, and all but an accepted START_QUEUE keep the task count |
| SchedulingProofs.UnhandledMessageIgnored | background.js:147-204 | a message type with no case, such as GET_REDIRECT_INFO, changes nothing and gets no reply |
| SchedulingProofs.InjectOncePerTab | background.js:218-231 | after an injection into tab `t`, the next update of `t` injects nothing and changes nothing |
| SchedulingProofs.InjectIff | background.js:218-231 | the script is injected iff the tab finished loading, was not injected before and carries an active task. Otherwise nothing changes |
| SchedulingProofs.ReconcilePreserves | background.js:53-64 | reconciling stored tasks that are in no collection keeps the invariant and counts each of them exactly once |
| SchedulingProofs.ReconcileKeys | background.js:53-64 | reconciliation adds exactly the keys of the stored tasks whose tab is live and leaves the primary queue alone |
| SchedulingProofs.ReconcileValues | background.js:53-55 | a live stored task is kept unchanged under its own id |
| SchedulingProofs.RestoreEstablishes | background.js:31-68 | from a consistent snapshot, restoring yields a state with the invariant, the capacity bound and as many tasks as the snapshot holds. It is initialised with the stored counters and pause flag |
| SchedulingProofs.ReconcileKeepsLive | background.js:53-67 | a stored active task is kept iff its tab id is truthy and live, and a paused snapshot dispatches nothing after reconciliation |
| SchedulingProofs.OrphanedFields | background.js:56-63 | a stored task whose tab is gone leaves the loop with one more retry, no tab, no start time, and its elapsed time added to `totalTimeMs` when `startedAt` was truthy |
| SchedulingProofs.ReconcileDeadTasks | background.js:53-64 | reconciliation appends to the retry queue the stored tasks with a dead tab that have retries left, in stored order and in their failed form, and adds the number of the others to `failedCount` |
| SchedulingProofs.DeadRetriedMembers | background.js:56-63 | the tasks appended are exactly the failed forms of the stored tasks with a dead tab whose new retry count is at most `MAX_RETRIES` |
| Background.Scheduler.constructor | background.js:4-14 | the module starts with empty queues, no active task, zero counters, all flags false and no injected tab, which satisfies `Valid()` with a batch of zero |
| Background.Scheduler.HandleFailure | background.js:114-127 | the in-place failure leaves the state `Scheduling.HandleFailure` computes |
| Background.Scheduler.StartTask | background.js:94-112 | the placeholder insert, delete and re-key leave the state `Scheduling.StartTask` computes |
| Background.Scheduler.Schedule | background.js:74-90 | the `while` loop leaves the state `Scheduling.Schedule` computes and keeps `Valid()` |
| Background.Scheduler.CompleteTask | background.js:138-140 | deleting the found task, forgetting its tab and counting it completed leave the state `Scheduling.CompleteTask` computes and nothing else |
| Background.Scheduler.CompleteTaskByTab | background.js:131-145 | it completes a task allowed by `Finds` and leaves the state `Scheduling.CompleteByTab` computes, keeping `Valid()` |
| Background.Scheduler.OnTaskDone | background.js:149-151 | a TASK_DONE from a truthy sender tab completes a task allowed by `Finds`; one without a tab id changes nothing |
| Background.Scheduler.OnStartQueue | background.js:153-177 | it is refused iff tasks are active. When accepted, the batch size becomes the number of URLs and `Valid()` holds |
| Background.Scheduler.OnPause | background.js:179-183 | only `paused` changes; the active map is untouched |
| Background.Scheduler.OnResume | background.js:185-190 | it clears `paused` and runs one pass |
| Background.Scheduler.OnStatus | background.js:192-201 | it reads nothing but the state, and under `Valid()` the report adds up to the batch size |
| Background.Scheduler.OnMessage | background.js:147-204 | the listener leaves the state and reply `Scheduling.OnMessage` computes and keeps `Valid()` |
| Background.Scheduler.OnCommand | background.js:208-214 | "mark-done" completes the active tab's task. Other commands change nothing |
| Background.Scheduler.OnUpdated | background.js:218-231 | it injects iff the tab finished loading, is not yet injected and carries an active task, and never twice into one tab |
| Background.Scheduler.LoadSnapshot | background.js:41-48 | each stored field replaces the in-memory one, its `||` default standing in when it is absent, the active map is emptied, and the stored active tasks (none when absent) are returned |
| Background.Scheduler.ReconcileStored | background.js:53-64 | the `for` loop over the stored active tasks, re-keying those on a live tab and failing the others, leaves the state `Scheduling.Reconcile` computes |
| Background.Scheduler.Restore | background.js:31-68 | the `for` loop leaves the state `Scheduling.Restore` computes. From a consistent snapshot it establishes `Valid()` with the snapshot's task count as the batch |
| Strings.IndexOf | content.js:56 | the result is the first occurrence at or after `from`, or there is none |
| Strings.Contains | content.js:63 | true iff the pattern occurs somewhere |
| Strings.EndsWith | content.js:62 | true iff the string is some prefix followed by the suffix |
| Strings.ContainsAny | content.js:63 | true iff one of the patterns occurs |
| Redirect.IsWayfair | content.js:39-45 | false for a URL that does not parse, otherwise true iff the host name contains "wayfair." |
| Redirect.ExtractPIID | content.js:47-53 | `null` for a URL that does not parse, otherwise the piid parameter |
| Redirect.ExtractSlug | content.js:55-58 | `null` iff there is no "/pdp/" or no "/" after the first one. Otherwise the text after the first "/" past the first "/pdp/", up to the first ".html" or the end |
| Redirect.IsInvalidWayfairURL | content.js:60-65 | true iff the URL does not end in ".html" or one of the six listing patterns occurs in it |
| Redirect.PiidMismatch | content.js:202-207 | true iff the final piid is the text "null" or the two piids differ, with an empty piid read as none |
| Redirect.SlugMismatch | content.js:214 | true iff both slugs are non-empty and differ |
| Redirect.EvaluateWayfair | content.js:190-197 | "No redirection detected" iff the final URL is not a Wayfair one. "URL IS INVALID" iff it is Wayfair and fails the validity test |
| RedirectProofs.SlugHasNoHtml | content.js:55-58 | an extracted slug never contains ".html" |
| RedirectProofs.OnlyFirstPdpCanMatch | content.js:56 | when the first "/pdp/" has no "/" after it, no "/pdp/" has, so the pattern's leftmost match starts at the first "/pdp/" |
| RedirectProofs.SlugFromFirstPdp | content.js:56 | the slug is the one after the first "/pdp/", whatever follows |
| RedirectProofs.ListingPatternsInvalid | content.js:10-17 | a URL containing any one of the six patterns is invalid |
| RedirectProofs.NotWayfairIgnoresOriginal | content.js:191-193 | for a non-Wayfair final URL the verdict is "No redirection detected" whatever the original URL |
| RedirectProofs.InvalidTakesPrecedence | content.js:195-197 | on a Wayfair host the invalid-URL verdict wins over the piid and slug tests |
| RedirectProofs.AcceptedFinalUrl | content.js:190-219 | the last three verdicts are only given to a Wayfair URL ending in ".html" that contains no listing pattern |
| RedirectProofs.VariationIff | content.js:199-209 | "VARIATION NOT SELECTED" iff the earlier tests passed and the final piid is "null" or the piids differ, an empty piid counting as none |
| RedirectProofs.SkuRedirectedIff | content.js:211-216 | "SKU REDIRECTED" iff no earlier rule fired and both slugs are non-empty and different. Both are then free of ".html" |
| RedirectProofs.SameUrlNotRedirected | content.js:190-219 | an unredirected tab is never reported as a SKU redirect, and shows "VARIATION NOT SELECTED" only for the literal piid "null" |
| RedirectProofs.TextsDistinct | content.js:190-219 | the five verdicts have five different texts |

## Left out

- `persistState`, and the `chrome.storage.local.set` it calls: a snapshot write with no logic. Each operation is treated as durable.
- The browser calls themselves (`chrome.tabs.create/remove/query`, `chrome.scripting.executeScript`, `chrome.runtime` messaging, `chrome.commands`). They are inputs or outputs of the operations: closing a completed task's tab is not represented, and injection is the boolean `OnUpdated` returns.
- The suspension points of `schedule`, `startTask` and `restoreState`. Each operation is atomic, so a completion cannot arrive in the middle of a pass. The `scheduling` flag is kept as the guard that makes a nested pass a no-op.
- Background.Scheduler.CompleteTaskByTab: the completed task's time is not folded into `totalTimeMs`, because the task leaves every collection and the value is never read again.
- Background.Scheduler.CompleteTaskByTab: which of several tasks on one tab is completed is left open, because it depends on JavaScript key order.
- Background.Scheduler.Restore: the invariant is established only for a consistent snapshot. Such a snapshot has distinct task ids, at most `MAX_CONCURRENT` stored active tasks and bounded retries, which is what `persistState` writes from a valid state.
- The stored map's keys are not represented; `restoreState` reads only its values.
- Redirect.ExtractSlug: the input is taken to have no line terminators, which the regular expression's `.` would not cross.
- WHATWG URL parsing behind `new URL`: the host name and piid are given with the URL.
- Everything else in `content.js`: the loading ribbon, the overlay, the Mark Done button, rendering and templating, clipboard copying and the timers. It is user interface.
- popup.js: user-interface wiring and message sends.
