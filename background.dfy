/**
 * The background script's scheduler as it runs: the module-level variables
 * are the fields of one `Scheduler` object, and each handler updates them in
 * place. Every method is proved to leave exactly the state the matching
 * function of scheduling.dfy computes. The handlers keep `Valid()`; the two
 * steps of a pass (`HandleFailure`, `StartTask`) promise nothing about it,
 * and `Restore` establishes it from a consistent snapshot.
 */
module Background {
  import opened Wrappers
  import opened Scheduling
  import opened SchedulingProofs

  class Scheduler {
    var queue: seq<Task>
    var retryQueue: seq<Task>
    var activeTasks: map<Key, Task>
    var completedCount: nat
    var failedCount: nat
    var paused: bool
    var initialized: bool
    var scheduling: bool
    /** Tabs the content script was injected into. */
    var injectedTabs: set<TabId>
    /** The number of tasks the current batch (or restored snapshot) started with. */
    ghost var batch: nat

    /** The fields as one value. */
    function Model(): State
      reads this
    {
      State(queue, retryQueue, activeTasks, completedCount, failedCount, paused, initialized, scheduling, injectedTabs)
    }

    /** Between handlers: no pass is running, every task is in one place, no
        task is lost or duplicated, and at most MAX_CONCURRENT are active. */
    ghost predicate Valid()
      reads this
    {
      && !scheduling
      && Inv(Model())
      && Count(Model()) == batch
      && |activeTasks| <= MAX_CONCURRENT
    }

    /** Module load: empty queues, nothing active, not yet initialised. */
    constructor ()
      ensures Model() == Initial && batch == 0 && Valid()
    {
      queue := [];
      retryQueue := [];
      activeTasks := map[];
      completedCount := 0;
      failedCount := 0;
      paused := false;
      initialized := false;
      scheduling := false;
      injectedTabs := {};
      batch := 0;
    }

    /** `handleFailure(task)`. */
    method HandleFailure(task: Task, now: int)
      modifies this
      ensures Model() == Scheduling.HandleFailure(old(Model()), task, now)
      ensures batch == old(batch)
    {
      var t := task;
      if Truthy(t.startedAt) {
        t := t.(totalTimeMs := t.totalTimeMs + (now - t.startedAt.value), startedAt := None);
      }
      t := t.(retries := t.retries + 1);
      if t.retries <= MAX_RETRIES {
        retryQueue := retryQueue + [t];
      } else {
        failedCount := failedCount + 1;
      }
    }

    /** `startTask(task)`, with `launch` the outcome of `chrome.tabs.create`. */
    method StartTask(task: Task, launch: Option<TabId>, now: int)
      modifies this
      ensures Model() == Scheduling.StartTask(old(Model()), task, launch, now)
      ensures batch == old(batch)
    {
      var placeholder := Placeholder(task.id);
      activeTasks := activeTasks[placeholder := task];
      match launch {
        case Some(tab) =>
          activeTasks := activeTasks - {placeholder};
          var started := task.(tabId := Some(tab), startedAt := Some(now));
          activeTasks := activeTasks[Real(task.id) := started];
        case None =>
          activeTasks := activeTasks - {placeholder};
          HandleFailure(task, now);
      }
    }

    /** `schedule()`; `launch(k)` is the outcome of the k-th launch of the pass. */
    method Schedule(launch: nat -> Option<TabId>, now: int)
      modifies this
      ensures Model() == Scheduling.Schedule(old(Model()), launch, now)
      ensures batch == old(batch)
      ensures old(Valid()) ==> Valid()
    {
      SchedulePreserves(Model(), launch, now);
      if !initialized || paused || scheduling {
        return;
      }
      scheduling := true;
      ghost var start := Model();
      var k: nat := 0;
      while |activeTasks| < MAX_CONCURRENT && (|queue| > 0 || |retryQueue| > 0)
        invariant Pass(Model(), launch, now, k) == Pass(start, launch, now, 0)
        invariant batch == old(batch)
        decreases Weight(queue) + Weight(retryQueue)
      {
        ghost var before := Model();
        var task: Task;
        if |queue| > 0 {
          task := queue[0];
          queue := queue[1..];
        } else {
          task := retryQueue[0];
          retryQueue := retryQueue[1..];
        }
        assert task == NextTask(before) && Model() == Dequeue(before);
        StartTaskShrinks(Model(), task, launch(k), now);
        StartTask(task, launch(k), now);
        k := k + 1;
      }
      scheduling := false;
    }

    /** The removal step of `completeTaskByTab` for the task found on `tab`. */
    method CompleteTask(task: Task, tab: TabId)
      modifies this
      ensures Model() == Scheduling.CompleteTask(old(Model()), task, tab)
      ensures batch == old(batch)
    {
      activeTasks := activeTasks - {Real(task.id)};
      injectedTabs := injectedTabs - {tab};
      completedCount := completedCount + 1;
    }

    /** `completeTaskByTab(tab)`; returns the task it completed, if any. */
    method CompleteTaskByTab(tab: TabId, launch: nat -> Option<TabId>, now: int) returns (found: Option<Task>)
      modifies this
      ensures Finds(old(activeTasks), tab, found)
      ensures Model() == CompleteByTab(old(Model()), tab, found, launch, now)
      ensures batch == old(batch)
      ensures old(Valid()) ==> Valid()
    {
      ghost var s0 := Model();
      if k :| k in activeTasks && activeTasks[k].tabId == Some(tab) {
        var task := activeTasks[k];
        found := Some(task);
        CompleteTask(task, tab);
        Schedule(launch, now);
      } else {
        found := None;
      }
      if Inv(s0) && |s0.activeTasks| <= MAX_CONCURRENT {
        CompleteByTabPreserves(s0, tab, found, launch, now);
      }
    }

    /** TASK_DONE: complete the sender tab's task when its id is truthy. */
    method OnTaskDone(senderTab: Option<TabId>, launch: nat -> Option<TabId>, now: int) returns (found: Option<Task>)
      modifies this
      ensures Truthy(senderTab) ==> Finds(old(activeTasks), senderTab.value, found)
      ensures !Truthy(senderTab) ==> found == None && Model() == old(Model())
      ensures (Model(), None) == Scheduling.OnMessage(old(Model()), TaskDone(senderTab), found, launch, now)
      ensures batch == old(batch)
      ensures old(Valid()) ==> Valid()
    {
      found := None;
      if Truthy(senderTab) {
        found := CompleteTaskByTab(senderTab.value, launch, now);
      }
    }

    /** START_QUEUE. */
    method OnStartQueue(urls: seq<string>, launch: nat -> Option<TabId>, now: int) returns (response: Response)
      modifies this
      ensures (Model(), response) == Scheduling.OnStartQueue(old(Model()), urls, launch, now)
      ensures response.Refused? <==> |old(activeTasks)| > 0
      ensures response.Refused? ==> Model() == old(Model()) && batch == old(batch)
      ensures response.Ack? ==> batch == |urls|
      ensures old(Valid()) ==> Valid()
    {
      if |activeTasks| > 0 {
        return Refused("Tasks already running");
      }
      StartQueueFacts(Model(), urls, launch, now);
      queue := Batch(urls);
      retryQueue := [];
      activeTasks := map[];
      completedCount := 0;
      failedCount := 0;
      paused := false;
      batch := |urls|;
      Schedule(launch, now);
      response := Ack("started");
    }

    /** PAUSE: only the flag changes; active tasks keep running. */
    method OnPause() returns (response: Response)
      modifies this
      ensures Model() == old(Model()).(paused := true)
      ensures activeTasks == old(activeTasks)
      ensures response == Ack("paused")
      ensures batch == old(batch)
      ensures old(Valid()) ==> Valid()
    {
      paused := true;
      response := Ack("paused");
    }

    /** RESUME: clear the flag and run a pass. */
    method OnResume(launch: nat -> Option<TabId>, now: int) returns (response: Response)
      modifies this
      ensures Model() == Scheduling.Schedule(old(Model()).(paused := false), launch, now)
      ensures response == Ack("resumed")
      ensures batch == old(batch)
      ensures old(Valid()) ==> Valid()
    {
      paused := false;
      Schedule(launch, now);
      response := Ack("resumed");
    }

    /** STATUS: the queue lengths, the non-placeholder active keys, the
        counters and the flag; between handlers they add up to the batch. */
    method OnStatus() returns (response: Response)
      ensures response == StatusOf(Model())
      ensures response.Report? && response.active <= |activeTasks|
      ensures Valid() ==> response.active == |activeTasks|
      ensures Valid() ==> response.pending + response.retrying + response.active
                          + response.completed + response.failed == batch
    {
      var active := set k | k in activeTasks.Keys && k.Real?;
      response := Report(|queue|, |retryQueue|, |active|, completedCount, failedCount, paused);
      StatusCounts(Model());
    }

    /** The message listener. */
    method OnMessage(msg: Message, launch: nat -> Option<TabId>, now: int)
      returns (response: Option<Response>, found: Option<Task>)
      modifies this
      ensures msg.TaskDone? && Truthy(msg.senderTab) ==> Finds(old(activeTasks), msg.senderTab.value, found)
      ensures (Model(), response) == Scheduling.OnMessage(old(Model()), msg, found, launch, now)
      ensures old(Valid()) ==> Valid()
    {
      found := None;
      match msg {
        case TaskDone(sender) =>
          found := OnTaskDone(sender, launch, now);
          response := None;
        case StartQueue(urls) =>
          var r := OnStartQueue(urls, launch, now);
          response := Some(r);
        case Pause =>
          var r := OnPause();
          response := Some(r);
        case Resume =>
          var r := OnResume(launch, now);
          response := Some(r);
        case Status =>
          var r := OnStatus();
          response := Some(r);
        case Other(_) =>
          response := None;
      }
    }

    /** The "mark-done" keyboard command on the active tab. */
    method OnCommand(command: string, activeTab: Option<TabId>, launch: nat -> Option<TabId>, now: int)
      returns (found: Option<Task>)
      modifies this
      ensures command == "mark-done" && activeTab.Some? ==> Finds(old(activeTasks), activeTab.value, found)
      ensures Model() == Scheduling.OnCommand(old(Model()), command, activeTab, found, launch, now)
      ensures old(Valid()) ==> Valid()
    {
      found := None;
      if command != "mark-done" {
        return;
      }
      if activeTab.Some? {
        found := CompleteTaskByTab(activeTab.value, launch, now);
      }
    }

    /** `onUpdated`: inject the content script into a tab that finished
        loading, belongs to an active task and was not injected before. */
    method OnUpdated(tab: TabId, complete: bool) returns (inject: bool)
      modifies this
      ensures (Model(), inject) == Scheduling.OnUpdated(old(Model()), tab, complete)
      ensures inject <==> complete && tab !in old(injectedTabs) && HasTab(activeTasks, tab)
      ensures tab in old(injectedTabs) ==> !inject
      ensures inject ==> tab in injectedTabs
      ensures batch == old(batch)
      ensures old(Valid()) ==> Valid()
    {
      if !complete {
        return false;
      }
      if tab in injectedTabs {
        return false;
      }
      var isActive := exists k | k in activeTasks :: activeTasks[k].tabId == Some(tab);
      if !isActive {
        return false;
      }
      injectedTabs := injectedTabs + {tab};
      inject := true;
    }

    /** The first half of `restoreState`: the stored fields, with defaults
        for missing ones, and an emptied active map. Returns the stored
        active tasks. */
    method LoadSnapshot(snap: Snapshot) returns (storedActive: seq<Task>)
      modifies this
      ensures Model() == Load(old(Model()), snap)
      ensures storedActive == snap.activeTasks.GetOr([])
      ensures batch == old(batch)
    {
      queue := snap.queue.GetOr([]);
      retryQueue := snap.retryQueue.GetOr([]);
      completedCount := snap.completedCount.GetOr(0);
      failedCount := snap.failedCount.GetOr(0);
      paused := snap.paused.GetOr(false);
      storedActive := snap.activeTasks.GetOr([]);
      activeTasks := map[];
    }

    /** The reconciliation loop of `restoreState`: a stored task whose tab is
        still open is re-keyed by its id, any other one fails. */
    method ReconcileStored(storedActive: seq<Task>, live: set<TabId>, now: int)
      modifies this
      ensures Model() == Reconcile(old(Model()), storedActive, live, now)
      ensures batch == old(batch)
    {
      for i := 0 to |storedActive|
        invariant Model() == Reconcile(old(Model()), storedActive[..i], live, now)
        invariant batch == old(batch)
      {
        var task := storedActive[i];
        assert storedActive[..i + 1][..i] == storedActive[..i];
        if Truthy(task.tabId) && task.tabId.value in live {
          activeTasks := activeTasks[Real(task.id) := task];
        } else {
          if Truthy(task.startedAt) {
            task := task.(totalTimeMs := task.totalTimeMs + (now - task.startedAt.value), startedAt := None);
          }
          task := task.(tabId := None);
          HandleFailure(task, now);
        }
      }
      assert storedActive[..|storedActive|] == storedActive;
    }

    /** `restoreState`: load the snapshot, reconcile the stored active tasks
        against the open tabs, then schedule unless paused. */
    method Restore(snap: Snapshot, live: set<TabId>, now: int, launch: nat -> Option<TabId>)
      modifies this
      ensures Model() == Scheduling.Restore(old(Model()), snap, live, now, launch)
      ensures Consistent(snap) ==> batch == SnapshotSize(snap)
      ensures Consistent(snap) && !old(scheduling) ==> Valid()
    {
      ghost var s0 := Model();
      var storedActive := LoadSnapshot(snap);
      ReconcileStored(storedActive, live, now);
      initialized := true;
      batch := SnapshotSize(snap);
      if !paused {
        Schedule(launch, now);
      }
      if Consistent(snap) {
        RestoreEstablishes(s0, snap, live, now, launch);
      }
    }
  }
}
