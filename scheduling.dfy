/**
 * The tab-job scheduler of the extension's background script, stated on
 * values: the whole module-level state is one `State`, and every handler is a
 * function from the state before to the state after. The class in
 * background.dfy runs the same steps in place and is proved equal to these
 * functions; the properties are proved about them in scheduling_proofs.dfy.
 *
 * Browser calls are inputs: a tab launch is an `Option<TabId>` (None is a
 * rejected `chrome.tabs.create`), the wall clock is `now`, and the tabs that
 * are still open at start-up are a `set<TabId>`.
 */
module Scheduling {
  import opened Wrappers

  /** At most this many keys in `activeTasks`, placeholders included. */
  const MAX_CONCURRENT: nat := 2
  /** A task is retried while its failure count stays at or below this. */
  const MAX_RETRIES: nat := 2

  type TabId = int

  /** One job: open `url` in a background tab and wait for "done". */
  datatype Task = Task(
    id: int,
    url: string,
    retries: nat,
    startedAt: Option<int>,
    totalTimeMs: int,
    tabId: Option<TabId>)

  /** Keys of `activeTasks`: a task id, or the placeholder `pending-<id>`. */
  datatype Key = Real(id: int) | Placeholder(id: int)

  datatype State = State(
    queue: seq<Task>,
    retryQueue: seq<Task>,
    activeTasks: map<Key, Task>,
    completedCount: nat,
    failedCount: nat,
    paused: bool,
    initialized: bool,
    scheduling: bool,
    injectedTabs: set<TabId>)

  /** The state at module load, before the stored snapshot is read. */
  const Initial: State := State([], [], map[], 0, 0, false, false, false, {})

  /** JavaScript truthiness of a number-or-null: 0 and null are false. */
  predicate Truthy(o: Option<int>) {
    o.Some? && o.value != 0
  }

  /* ---------- Failure and retry accounting ---------- */

  /** Adds the time since `startedAt` to `totalTimeMs` and clears `startedAt`,
      when `startedAt` is set. */
  function FoldElapsed(t: Task, now: int): Task {
    if Truthy(t.startedAt) then
      t.(totalTimeMs := t.totalTimeMs + (now - t.startedAt.value), startedAt := None)
    else t
  }

  /** The task as `handleFailure` leaves it: time folded, one more failure. */
  function Failed(t: Task, now: int): Task {
    FoldElapsed(t, now).(retries := t.retries + 1)
  }

  /** `handleFailure`: re-queue at the end of the retry queue while the
      failure count allows it, otherwise count the task as failed. */
  function HandleFailure(s: State, t: Task, now: int): State {
    var f := Failed(t, now);
    if f.retries <= MAX_RETRIES then s.(retryQueue := s.retryQueue + [f])
    else s.(failedCount := s.failedCount + 1)
  }

  /* ---------- Dispatch ---------- */

  /** `startTask`: reserve a slot under the placeholder key, then promote the
      task to its own key on a successful launch, or release the slot and
      fail the task. */
  function StartTask(s: State, t: Task, launch: Option<TabId>, now: int): State {
    var reserved := s.activeTasks[Placeholder(t.id) := t];
    var released := reserved - {Placeholder(t.id)};
    match launch
    case Some(tab) =>
      s.(activeTasks := released[Real(t.id) := t.(tabId := Some(tab), startedAt := Some(now))])
    case None =>
      HandleFailure(s.(activeTasks := released), t, now)
  }

  /** The guard of the dispatch loop. */
  predicate CanDispatch(s: State) {
    |s.activeTasks| < MAX_CONCURRENT && (|s.queue| > 0 || |s.retryQueue| > 0)
  }

  /** `queue.shift() || retryQueue.shift()`: the task taken next. */
  function NextTask(s: State): Task
    requires |s.queue| > 0 || |s.retryQueue| > 0
  {
    if |s.queue| > 0 then s.queue[0] else s.retryQueue[0]
  }

  /** The state once `NextTask(s)` has been shifted off its queue. */
  function Dequeue(s: State): State
    requires |s.queue| > 0 || |s.retryQueue| > 0
  {
    if |s.queue| > 0 then s.(queue := s.queue[1..]) else s.(retryQueue := s.retryQueue[1..])
  }

  /** Tasks waiting to be dispatched, in dispatch order. */
  function Pending(s: State): seq<Task> {
    s.queue + s.retryQueue
  }

  /** How many more dispatches a waiting task can take part in: a fresh task
      can fail MAX_RETRIES + 1 times. This bounds the dispatch loop. */
  function Budget(t: Task): nat {
    if t.retries <= MAX_RETRIES then MAX_RETRIES + 2 - t.retries else 1
  }

  function Weight(q: seq<Task>): nat {
    if q == [] then 0 else Budget(q[0]) + Weight(q[1..])
  }

  lemma {:induction false} WeightAppend(q: seq<Task>, t: Task)
    ensures Weight(q + [t]) == Weight(q) + Budget(t)
  {
    if q != [] {
      assert (q + [t])[1..] == q[1..] + [t];
      WeightAppend(q[1..], t);
    }
  }

  /** A start either moves the task to `activeTasks` or puts it back with a
      smaller budget (or drops it), so the waiting weight goes down. */
  lemma StartTaskShrinks(s: State, t: Task, launch: Option<TabId>, now: int)
    ensures var s' := StartTask(s, t, launch, now);
      s'.queue == s.queue &&
      Weight(s'.queue) + Weight(s'.retryQueue) < Weight(s.queue) + Weight(s.retryQueue) + Budget(t)
  {
    var f := Failed(t, now);
    if launch.None? && f.retries <= MAX_RETRIES {
      WeightAppend(s.retryQueue, f);
    }
  }

  /** The `while` loop of `schedule`; `k` numbers the launches of this pass. */
  function Pass(s: State, launch: nat -> Option<TabId>, now: int, k: nat): State
    decreases Weight(s.queue) + Weight(s.retryQueue)
  {
    if CanDispatch(s) then
      var rest := Dequeue(s);
      StartTaskShrinks(rest, NextTask(s), launch(k), now);
      Pass(StartTask(rest, NextTask(s), launch(k), now), launch, now, k + 1)
    else s
  }

  /** The tasks a pass hands to `startTask`, in order. */
  ghost function Dispatched(s: State, launch: nat -> Option<TabId>, now: int, k: nat): seq<Task>
    decreases Weight(s.queue) + Weight(s.retryQueue)
  {
    if CanDispatch(s) then
      var rest := Dequeue(s);
      StartTaskShrinks(rest, NextTask(s), launch(k), now);
      [NextTask(s)] + Dispatched(StartTask(rest, NextTask(s), launch(k), now), launch, now, k + 1)
    else []
  }

  /** `schedule`: a no-op unless initialised, running and not already inside a
      pass; otherwise one pass under the `scheduling` flag. */
  function Schedule(s: State, launch: nat -> Option<TabId>, now: int): State {
    if !s.initialized || s.paused || s.scheduling then s
    else Pass(s.(scheduling := true), launch, now, 0).(scheduling := false)
  }

  /* ---------- Completion ---------- */

  /** Some active task runs in tab `tab`. */
  predicate HasTab(m: map<Key, Task>, tab: TabId) {
    exists k | k in m :: m[k].tabId == Some(tab)
  }

  /** `completeTaskByTab` once task `t` has been found for `tab`, before the
      closing `schedule()`. */
  function CompleteTask(s: State, t: Task, tab: TabId): State {
    s.(activeTasks := s.activeTasks - {Real(t.id)},
       injectedTabs := s.injectedTabs - {tab},
       completedCount := s.completedCount + 1)
  }

  /** `found` is what `Object.values(activeTasks).find(t => t.tabId === tab)`
      may return: nothing exactly when no active task runs in `tab`, else one
      of the active tasks that does (which one, when several share the tab,
      depends on key order and is left open). */
  ghost predicate Finds(m: map<Key, Task>, tab: TabId, found: Option<Task>) {
    && (found.None? <==> !HasTab(m, tab))
    && (found.Some? ==> found.value.tabId == Some(tab) && found.value in m.Values)
  }

  /** `completeTaskByTab(tab)` with `found` as the searched task: nothing
      happens without one; otherwise the task is removed, counted, the tab
      forgotten by the injection guard, and a pass runs. */
  function CompleteByTab(s: State, tab: TabId, found: Option<Task>, launch: nat -> Option<TabId>, now: int): State {
    match found
    case None => s
    case Some(t) => Schedule(CompleteTask(s, t, tab), launch, now)
  }

  /* ---------- Messages ---------- */

  /** The tasks of a START_QUEUE batch: ids 1..n in input order. */
  function Batch(urls: seq<string>): seq<Task> {
    seq(|urls|, i requires 0 <= i < |urls| => Task(i + 1, urls[i], 0, None, 0, None))
  }

  datatype Response =
    | Refused(error: string)
    | Ack(status: string)
    | Report(pending: nat, retrying: nat, active: nat, completed: nat, failed: nat, paused: bool)

  datatype Message =
    | TaskDone(senderTab: Option<TabId>)
    | StartQueue(urls: seq<string>)
    | Pause
    | Resume
    | Status
    | Other(kind: string)

  /** START_QUEUE: refused while any key is active; otherwise the batch
      replaces everything and a pass runs. */
  function OnStartQueue(s: State, urls: seq<string>, launch: nat -> Option<TabId>, now: int): (State, Response) {
    if |s.activeTasks| > 0 then (s, Refused("Tasks already running"))
    else
      var reset := s.(queue := Batch(urls), retryQueue := [], activeTasks := map[],
                      completedCount := 0, failedCount := 0, paused := false);
      (Schedule(reset, launch, now), Ack("started"))
  }

  /** Keys that are not placeholders. */
  function RealKeys(m: map<Key, Task>): set<Key> {
    set k | k in m.Keys && k.Real?
  }

  /** The STATUS reply. */
  function StatusOf(s: State): Response {
    Report(|s.queue|, |s.retryQueue|, |RealKeys(s.activeTasks)|, s.completedCount, s.failedCount, s.paused)
  }

  /** The message listener. TASK_DONE sends no reply, needs a truthy sender
      tab id and completes `found`; unknown message types change nothing. */
  function OnMessage(s: State, msg: Message, found: Option<Task>, launch: nat -> Option<TabId>, now: int): (State, Option<Response>) {
    match msg
    case TaskDone(sender) =>
      if Truthy(sender) then (CompleteByTab(s, sender.value, found, launch, now), None) else (s, None)
    case StartQueue(urls) =>
      var (s', r) := OnStartQueue(s, urls, launch, now);
      (s', Some(r))
    case Pause => (s.(paused := true), Some(Ack("paused")))
    case Resume => (Schedule(s.(paused := false), launch, now), Some(Ack("resumed")))
    case Status => (s, Some(StatusOf(s)))
    case Other(_) => (s, None)
  }

  /** The "mark-done" keyboard command completes the task of the active tab
      (`activeTab` is the id of `tabs[0]`, None when there is no such tab). */
  function OnCommand(s: State, command: string, activeTab: Option<TabId>, found: Option<Task>,
                     launch: nat -> Option<TabId>, now: int): State {
    if command != "mark-done" then s
    else match activeTab
      case None => s
      case Some(tab) => CompleteByTab(s, tab, found, launch, now)
  }

  /* ---------- Content-script injection ---------- */

  /** `onUpdated`: inject into a finished-loading tab of an active task, once
      per tab. The boolean says whether the script is injected. */
  function OnUpdated(s: State, tab: TabId, complete: bool): (State, bool) {
    if !complete || tab in s.injectedTabs || !HasTab(s.activeTasks, tab) then (s, false)
    else (s.(injectedTabs := s.injectedTabs + {tab}), true)
  }

  /* ---------- Restore and crash recovery ---------- */

  /** What `chrome.storage.local.get` returns; a missing field is None.
      `activeTasks` is the stored map's `Object.values`, in that order. */
  datatype Snapshot = Snapshot(
    queue: Option<seq<Task>>,
    retryQueue: Option<seq<Task>>,
    activeTasks: Option<seq<Task>>,
    completedCount: Option<nat>,
    failedCount: Option<nat>,
    paused: Option<bool>)

  /** A stored active task whose tab is still open. */
  predicate LiveTask(t: Task, live: set<TabId>) {
    Truthy(t.tabId) && t.tabId.value in live
  }

  /** One turn of the reconciliation loop. */
  function ReconcileOne(s: State, t: Task, live: set<TabId>, now: int): State {
    if LiveTask(t, live) then s.(activeTasks := s.activeTasks[Real(t.id) := t])
    else HandleFailure(s, FoldElapsed(t, now).(tabId := None), now)
  }

  /** The reconciliation loop over the stored active tasks, in order. */
  function Reconcile(s: State, stored: seq<Task>, live: set<TabId>, now: int): State
    decreases |stored|
  {
    if stored == [] then s
    else ReconcileOne(Reconcile(s, stored[..|stored| - 1], live, now), stored[|stored| - 1], live, now)
  }

  /** The state once the snapshot's fields are loaded and `activeTasks` is
      emptied, before reconciliation. */
  function Load(s: State, snap: Snapshot): State {
    s.(queue := snap.queue.GetOr([]),
       retryQueue := snap.retryQueue.GetOr([]),
       completedCount := snap.completedCount.GetOr(0),
       failedCount := snap.failedCount.GetOr(0),
       paused := snap.paused.GetOr(false),
       activeTasks := map[])
  }

  /** `restoreState`: load, reconcile against the open tabs, mark the
      scheduler initialised and, unless paused, schedule. */
  function Restore(s: State, snap: Snapshot, live: set<TabId>, now: int, launch: nat -> Option<TabId>): State {
    var r := Reconcile(Load(s, snap), snap.activeTasks.GetOr([]), live, now).(initialized := true);
    if !r.paused then Schedule(r, launch, now) else r
  }

  /* ---------- Invariants ---------- */

  /** Every key of the active map is the real key of the task it holds: no
      placeholder outlives a `startTask`. */
  ghost predicate WellKeyed(m: map<Key, Task>) {
    forall k | k in m :: k == Real(m[k].id)
  }

  ghost predicate DistinctIds(q: seq<Task>) {
    forall i, j | 0 <= i < j < |q| :: q[i].id != q[j].id
  }

  ghost predicate RetriesBounded(q: seq<Task>) {
    forall i | 0 <= i < |q| :: q[i].retries <= MAX_RETRIES
  }

  /** Each task is in exactly one place, under its own key when active, and
      the retry queue holds only tasks that may still be retried. */
  ghost predicate Inv(s: State) {
    && WellKeyed(s.activeTasks)
    && DistinctIds(Pending(s))
    && (forall i | 0 <= i < |Pending(s)| :: Real(Pending(s)[i].id) !in s.activeTasks)
    && RetriesBounded(s.retryQueue)
  }

  /** Waiting, active, completed and failed tasks together. */
  function Count(s: State): nat {
    |s.queue| + |s.retryQueue| + |s.activeTasks| + s.completedCount + s.failedCount
  }

  /** The snapshot describes a state the scheduler could have stored: ids are
      unique over all its tasks, retries are bounded and at most
      MAX_CONCURRENT tasks were active. */
  ghost predicate Consistent(snap: Snapshot) {
    var stored := snap.activeTasks.GetOr([]);
    && DistinctIds(snap.queue.GetOr([]) + snap.retryQueue.GetOr([]) + stored)
    && RetriesBounded(snap.retryQueue.GetOr([]))
    && |stored| <= MAX_CONCURRENT
  }

  /** How many tasks a consistent snapshot accounts for. */
  function SnapshotSize(snap: Snapshot): nat {
    |snap.queue.GetOr([])| + |snap.retryQueue.GetOr([])| + |snap.activeTasks.GetOr([])|
      + snap.completedCount.GetOr(0) + snap.failedCount.GetOr(0)
  }
}
