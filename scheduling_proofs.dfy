/**
 * Properties of the scheduler of scheduling.dfy: retry accounting, the
 * capacity bound, FIFO dispatch with primary priority, placeholder
 * clean-up, conservation of tasks, idempotent completion and start-up
 * reconciliation.
 */
module SchedulingProofs {
  import opened Wrappers
  import opened Scheduling

  /** No `pending-<id>` key in the map. */
  ghost predicate NoPlaceholders(m: map<Key, Task>) {
    forall k | k in m :: k.Real?
  }

  /** Task id `id` is nowhere in the state yet. */
  ghost predicate Fresh(s: State, id: int) {
    && (forall i | 0 <= i < |Pending(s)| :: Pending(s)[i].id != id)
    && Real(id) !in s.activeTasks
  }

  /** The fields a scheduling pass never touches. */
  ghost predicate SameOutsideQueues(s: State, r: State) {
    && r.completedCount == s.completedCount
    && r.paused == s.paused
    && r.initialized == s.initialized
    && r.scheduling == s.scheduling
    && r.injectedTabs == s.injectedTabs
  }

  /* ---------- handleFailure ---------- */

  /** The retry accounting of `handleFailure`: one more failure, time folded,
      re-queued at the end exactly while the new count is at most
      MAX_RETRIES, counted as failed otherwise; nothing else changes. */
  lemma HandleFailureAccounting(s: State, t: Task, now: int)
    ensures var f := Failed(t, now);
      && f.retries == t.retries + 1
      && f.id == t.id && f.url == t.url && f.tabId == t.tabId
      && f.totalTimeMs == t.totalTimeMs + (if Truthy(t.startedAt) then now - t.startedAt.value else 0)
      && !Truthy(f.startedAt)
    ensures var r := HandleFailure(s, t, now);
      && (t.retries + 1 <= MAX_RETRIES ==>
            r.retryQueue == s.retryQueue + [Failed(t, now)] && r.failedCount == s.failedCount)
      && (t.retries + 1 > MAX_RETRIES ==>
            r.retryQueue == s.retryQueue && r.failedCount == s.failedCount + 1)
      && r.queue == s.queue && r.activeTasks == s.activeTasks && SameOutsideQueues(s, r)
  {
  }

  /** Failing a task that is nowhere else keeps the invariant and accounts
      for it exactly once: in the retry queue or in `failedCount`. */
  lemma HandleFailurePreserves(s: State, t: Task, now: int)
    requires Inv(s) && Fresh(s, t.id)
    ensures Inv(HandleFailure(s, t, now))
    ensures Count(HandleFailure(s, t, now)) == Count(s) + 1
  {
    var f := Failed(t, now);
    var r := HandleFailure(s, t, now);
    if f.retries <= MAX_RETRIES {
      assert Pending(r) == Pending(s) + [f];
      var p := Pending(r);
      forall i, j | 0 <= i < j < |p| ensures p[i].id != p[j].id {
        if j == |p| - 1 {
          assert p[i] == Pending(s)[i];
        }
      }
      forall i | 0 <= i < |r.retryQueue| ensures r.retryQueue[i].retries <= MAX_RETRIES {
        if i < |s.retryQueue| { assert r.retryQueue[i] == s.retryQueue[i]; }
      }
    }
  }

  /* ---------- startTask ---------- */

  /** `startTask` leaves no placeholder behind: on a launch the task sits under
      its own id with its tab and start time, otherwise the slot is released
      and the task goes through `handleFailure`. */
  lemma StartTaskOutcome(s: State, t: Task, launch: Option<TabId>, now: int)
    requires NoPlaceholders(s.activeTasks)
    ensures var r := StartTask(s, t, launch, now);
      && NoPlaceholders(r.activeTasks)
      && Placeholder(t.id) !in r.activeTasks
      && (launch.Some? ==>
            && r.activeTasks.Keys == s.activeTasks.Keys + {Real(t.id)}
            && r.activeTasks[Real(t.id)].tabId == launch
            && r.activeTasks[Real(t.id)].startedAt == Some(now)
            && r.activeTasks[Real(t.id)].retries == t.retries
            && r.queue == s.queue && r.retryQueue == s.retryQueue && r.failedCount == s.failedCount)
      && (launch.None? ==> r == HandleFailure(s, t, now))
  {
    var released := s.activeTasks[Placeholder(t.id) := t] - {Placeholder(t.id)};
    assert released == s.activeTasks;
  }

  /** A start adds at most one key to `activeTasks`. */
  lemma StartTaskGrowsByOne(s: State, t: Task, launch: Option<TabId>, now: int)
    ensures |StartTask(s, t, launch, now).activeTasks| <= |s.activeTasks| + 1
  {
    var released := s.activeTasks[Placeholder(t.id) := t] - {Placeholder(t.id)};
    assert released.Keys == s.activeTasks.Keys - {Placeholder(t.id)};
    assert released.Keys <= s.activeTasks.Keys;
    SubsetCard(released.Keys, s.activeTasks.Keys);
  }

  lemma SubsetCard<T>(a: set<T>, b: set<T>)
    requires a <= b
    ensures |a| <= |b|
  {
    assert b == a + (b - a);
  }

  /** Starting a fresh task keeps the invariant and the task count. */
  lemma StartTaskPreserves(s: State, t: Task, launch: Option<TabId>, now: int)
    requires Inv(s) && Fresh(s, t.id)
    ensures Inv(StartTask(s, t, launch, now))
    ensures Count(StartTask(s, t, launch, now)) == Count(s) + 1
  {
    var released := s.activeTasks[Placeholder(t.id) := t] - {Placeholder(t.id)};
    assert released == s.activeTasks;
    if launch.None? {
      HandleFailurePreserves(s, t, now);
    }
  }

  /* ---------- The dispatch loop ---------- */

  /** The next task is the head of the pending sequence (primary queue, then
      retry queue), and dequeuing drops exactly that head. */
  lemma DequeueFacts(s: State)
    requires |s.queue| > 0 || |s.retryQueue| > 0
    ensures NextTask(s) == Pending(s)[0]
    ensures Pending(Dequeue(s)) == Pending(s)[1..]
    ensures |s.queue| > 0 ==> NextTask(s) == s.queue[0] && Dequeue(s).retryQueue == s.retryQueue
    ensures |s.queue| == 0 ==> NextTask(s) == s.retryQueue[0] && Dequeue(s).queue == []
    ensures Count(Dequeue(s)) + 1 == Count(s)
  {
    var d := Dequeue(s);
    if |s.queue| > 0 {
      assert Pending(d) == Pending(s)[1..];
    } else {
      assert Pending(s) == s.retryQueue;
      assert Pending(d) == s.retryQueue[1..];
    }
  }

  /** Dequeuing keeps the invariant, and the task taken is then in no
      collection. */
  lemma DequeueKeepsInv(s: State)
    requires Inv(s) && (|s.queue| > 0 || |s.retryQueue| > 0)
    ensures Inv(Dequeue(s)) && Fresh(Dequeue(s), NextTask(s).id)
  {
    DequeueFacts(s);
    var d := Dequeue(s);
    var p := Pending(s);
    assert forall i | 0 <= i < |Pending(d)| :: Pending(d)[i] == p[i + 1];
    forall i | 0 <= i < |d.retryQueue| ensures d.retryQueue[i].retries <= MAX_RETRIES {
      if |s.queue| == 0 { assert d.retryQueue[i] == s.retryQueue[i + 1]; }
    }
  }

  /** One turn of the loop keeps the invariant and the number of tasks. */
  lemma StepPreserves(s: State, launch: Option<TabId>, now: int)
    requires Inv(s) && (|s.queue| > 0 || |s.retryQueue| > 0)
    ensures Inv(StartTask(Dequeue(s), NextTask(s), launch, now))
    ensures Count(StartTask(Dequeue(s), NextTask(s), launch, now)) == Count(s)
  {
    DequeueFacts(s);
    DequeueKeepsInv(s);
    StartTaskPreserves(Dequeue(s), NextTask(s), launch, now);
  }

  /** A pass keeps the invariant and the number of tasks, and touches only the
      queues, the active map and `failedCount`. */
  lemma {:induction false} PassPreserves(s: State, launch: nat -> Option<TabId>, now: int, k: nat)
    requires Inv(s)
    ensures Inv(Pass(s, launch, now, k))
    ensures Count(Pass(s, launch, now, k)) == Count(s)
    decreases Weight(s.queue) + Weight(s.retryQueue)
  {
    if CanDispatch(s) {
      var s' := StartTask(Dequeue(s), NextTask(s), launch(k), now);
      StartTaskShrinks(Dequeue(s), NextTask(s), launch(k), now);
      StepPreserves(s, launch(k), now);
      PassPreserves(s', launch, now, k + 1);
    }
  }

  /** A pass changes nothing but the queues, the active map and `failedCount`. */
  lemma {:induction false} PassFrame(s: State, launch: nat -> Option<TabId>, now: int, k: nat)
    ensures SameOutsideQueues(s, Pass(s, launch, now, k))
    ensures Pass(s, launch, now, k).failedCount >= s.failedCount
    decreases Weight(s.queue) + Weight(s.retryQueue)
  {
    if CanDispatch(s) {
      var s' := StartTask(Dequeue(s), NextTask(s), launch(k), now);
      StartTaskShrinks(Dequeue(s), NextTask(s), launch(k), now);
      PassFrame(s', launch, now, k + 1);
    }
  }

  /** The capacity bound: a pass starts a task only below MAX_CONCURRENT keys,
      so it never takes the key count above MAX_CONCURRENT; and it stops only
      when the map is full or nothing is waiting. */
  lemma {:induction false} PassBounded(s: State, launch: nat -> Option<TabId>, now: int, k: nat)
    ensures |Pass(s, launch, now, k).activeTasks| <= if |s.activeTasks| > MAX_CONCURRENT then |s.activeTasks| else MAX_CONCURRENT
    ensures !CanDispatch(Pass(s, launch, now, k))
    decreases Weight(s.queue) + Weight(s.retryQueue)
  {
    if CanDispatch(s) {
      var s' := StartTask(Dequeue(s), NextTask(s), launch(k), now);
      StartTaskShrinks(Dequeue(s), NextTask(s), launch(k), now);
      StartTaskGrowsByOne(Dequeue(s), NextTask(s), launch(k), now);
      PassBounded(s', launch, now, k + 1);
    }
  }

  /** A pass creates no placeholder that outlives it. */
  lemma {:induction false} PassNoPlaceholders(s: State, launch: nat -> Option<TabId>, now: int, k: nat)
    requires NoPlaceholders(s.activeTasks)
    ensures NoPlaceholders(Pass(s, launch, now, k).activeTasks)
    decreases Weight(s.queue) + Weight(s.retryQueue)
  {
    if CanDispatch(s) {
      var s' := StartTask(Dequeue(s), NextTask(s), launch(k), now);
      StartTaskShrinks(Dequeue(s), NextTask(s), launch(k), now);
      StartTaskOutcome(Dequeue(s), NextTask(s), launch(k), now);
      PassNoPlaceholders(s', launch, now, k + 1);
    }
  }

  /** One turn of the loop: the pending sequence loses its head and may gain
      the failed task at its end; the primary queue only loses its head. */
  lemma StepPending(s: State, launch: Option<TabId>, now: int)
    requires |s.queue| > 0 || |s.retryQueue| > 0
    ensures var s' := StartTask(Dequeue(s), NextTask(s), launch, now);
      && |Pending(s')| >= |Pending(s)| - 1
      && Pending(s')[..|Pending(s)| - 1] == Pending(s)[1..]
      && s'.queue == (if |s.queue| > 0 then s.queue[1..] else [])
  {
    var rest := Dequeue(s);
    var t := NextTask(s);
    DequeueFacts(s);
    var released := rest.activeTasks[Placeholder(t.id) := t] - {Placeholder(t.id)};
    if launch.None? && Failed(t, now).retries <= MAX_RETRIES {
      assert Pending(StartTask(rest, t, launch, now)) == Pending(rest) + [Failed(t, now)];
    } else {
      assert Pending(StartTask(rest, t, launch, now)) == Pending(rest);
    }
  }

  /** Dispatch order: the tasks a pass starts begin with the primary queue in
      order and continue with the retry queue in order (tasks failed during
      the pass come after both), and what is left of the primary queue is a
      suffix of it. */
  lemma {:induction false} PassFifo(s: State, launch: nat -> Option<TabId>, now: int, k: nat)
    ensures var d := Dispatched(s, launch, now, k);
      forall i | 0 <= i < |d| && i < |Pending(s)| :: d[i] == Pending(s)[i]
    ensures var q := Pass(s, launch, now, k).queue;
      |q| <= |s.queue| && q == s.queue[|s.queue| - |q|..]
    decreases Weight(s.queue) + Weight(s.retryQueue)
  {
    if CanDispatch(s) {
      var s' := StartTask(Dequeue(s), NextTask(s), launch(k), now);
      StartTaskShrinks(Dequeue(s), NextTask(s), launch(k), now);
      DequeueFacts(s);
      StepPending(s, launch(k), now);
      PassFifo(s', launch, now, k + 1);
      var d := Dispatched(s, launch, now, k);
      var d' := Dispatched(s', launch, now, k + 1);
      assert d == [Pending(s)[0]] + d';
      forall i | 0 <= i < |d| && i < |Pending(s)| ensures d[i] == Pending(s)[i] {
        if i > 0 {
          assert d[i] == d'[i - 1];
          assert Pending(s)[i] == Pending(s)[1..][i - 1] == Pending(s')[i - 1];
        }
      }
      var q := Pass(s', launch, now, k + 1).queue;
      if |s.queue| > 0 {
        assert s.queue[1..][|s'.queue| - |q|..] == s.queue[|s.queue| - |q|..];
      }
    }
  }

  /** A start puts no task in tab `tab` unless the launch returned it. */
  lemma StartTaskAvoidsTab(s: State, t: Task, launch: Option<TabId>, now: int, tab: TabId)
    requires !HasTab(s.activeTasks, tab) && launch != Some(tab)
    ensures !HasTab(StartTask(s, t, launch, now).activeTasks, tab)
  {
    var released := s.activeTasks[Placeholder(t.id) := t] - {Placeholder(t.id)};
    assert forall key | key in released :: key in s.activeTasks && released[key] == s.activeTasks[key];
  }

  /** No pass gives a task the tab `tab` when the launcher never returns it. */
  lemma {:induction false} PassAvoidsTab(s: State, tab: TabId, launch: nat -> Option<TabId>, now: int, k: nat)
    requires !HasTab(s.activeTasks, tab)
    requires forall j: nat :: launch(j) != Some(tab)
    ensures !HasTab(Pass(s, launch, now, k).activeTasks, tab)
    decreases Weight(s.queue) + Weight(s.retryQueue)
  {
    if CanDispatch(s) {
      var s' := StartTask(Dequeue(s), NextTask(s), launch(k), now);
      StartTaskShrinks(Dequeue(s), NextTask(s), launch(k), now);
      StartTaskAvoidsTab(Dequeue(s), NextTask(s), launch(k), now, tab);
      PassAvoidsTab(s', tab, launch, now, k + 1);
    }
  }

  /* ---------- schedule ---------- */

  /** `schedule` dispatches nothing unless initialised, not paused and not
      already running; when it runs it keeps the invariant, the task count
      and the capacity bound, and leaves the `scheduling` flag as it was. */
  lemma SchedulePreserves(s: State, launch: nat -> Option<TabId>, now: int)
    ensures !(s.initialized && !s.paused && !s.scheduling) ==> Schedule(s, launch, now) == s
    ensures Inv(s) ==> Inv(Schedule(s, launch, now)) && Count(Schedule(s, launch, now)) == Count(s)
    ensures |s.activeTasks| <= MAX_CONCURRENT ==> |Schedule(s, launch, now).activeTasks| <= MAX_CONCURRENT
    ensures SameOutsideQueues(s, Schedule(s, launch, now))
    ensures NoPlaceholders(s.activeTasks) ==> NoPlaceholders(Schedule(s, launch, now).activeTasks)
  {
    var s1 := s.(scheduling := true);
    PassFrame(s1, launch, now, 0);
    PassBounded(s1, launch, now, 0);
    if NoPlaceholders(s.activeTasks) {
      PassNoPlaceholders(s1, launch, now, 0);
    }
    if Inv(s) {
      assert Inv(s1);
      PassPreserves(s1, launch, now, 0);
    }
  }

  /** PAUSE only raises the flag: no active task is removed and no pass can
      start a task until RESUME. */
  lemma PauseStopsDispatch(s: State, found: Option<Task>, launch: nat -> Option<TabId>, now: int)
    ensures var (r, resp) := OnMessage(s, Pause, found, launch, now);
      && r == s.(paused := true)
      && resp == Some(Ack("paused"))
      && Schedule(r, launch, now) == r
  {
  }

  /* ---------- Completion ---------- */

  /** Completing a found task removes exactly it, counts it once and keeps the
      invariant and the number of tasks. */
  lemma CompletePreserves(s: State, tab: TabId, t: Task)
    requires Inv(s) && Finds(s.activeTasks, tab, Some(t))
    ensures var r := CompleteTask(s, t, tab);
      && Inv(r) && Count(r) == Count(s)
      && r.activeTasks.Keys == s.activeTasks.Keys - {Real(t.id)}
      && r.completedCount == s.completedCount + 1
      && tab !in r.injectedTabs
      && |r.activeTasks| <= |s.activeTasks|
  {
    var k :| k in s.activeTasks && s.activeTasks[k] == t;
    assert k == Real(t.id);
    var r := CompleteTask(s, t, tab);
    assert r.activeTasks.Keys == s.activeTasks.Keys - {Real(t.id)};
    assert |r.activeTasks.Keys| == |s.activeTasks.Keys| - 1;
  }

  /** `completeTaskByTab` keeps the invariant, the number of tasks and the
      capacity bound, whichever matching task it finds. */
  lemma CompleteByTabPreserves(s: State, tab: TabId, found: Option<Task>, launch: nat -> Option<TabId>, now: int)
    requires Inv(s) && Finds(s.activeTasks, tab, found)
    ensures var r := CompleteByTab(s, tab, found, launch, now);
      && Inv(r) && Count(r) == Count(s)
      && (|s.activeTasks| <= MAX_CONCURRENT ==> |r.activeTasks| <= MAX_CONCURRENT)
      && r.completedCount == s.completedCount + (if found.Some? then 1 else 0)
  {
    if found.Some? {
      var c := CompleteTask(s, found.value, tab);
      CompletePreserves(s, tab, found.value);
      SchedulePreserves(c, launch, now);
    }
  }

  /** A repeated "done" for the same tab is a no-op: once the only task in
      `tab` is completed, no active task runs in `tab` (unless a later launch
      reuses that tab id), so the next search finds nothing. */
  lemma RepeatDoneIsNoOp(s: State, tab: TabId, t: Task, launch: nat -> Option<TabId>, now: int)
    requires WellKeyed(s.activeTasks) && Finds(s.activeTasks, tab, Some(t))
    requires forall k | k in s.activeTasks && s.activeTasks[k].tabId == Some(tab) :: k == Real(t.id)
    requires forall j: nat :: launch(j) != Some(tab)
    ensures var r := CompleteByTab(s, tab, Some(t), launch, now);
      && !HasTab(r.activeTasks, tab)
      && Finds(r.activeTasks, tab, None)
      && CompleteByTab(r, tab, None, launch, now) == r
  {
    var c := CompleteTask(s, t, tab);
    assert !HasTab(c.activeTasks, tab);
    var s1 := c.(scheduling := true);
    if c.initialized && !c.paused && !c.scheduling {
      PassAvoidsTab(s1, tab, launch, now, 0);
    }
  }

  /* ---------- Messages ---------- */

  /** The tasks of a START_QUEUE batch: one per URL, in order, numbered from 1,
      never retried, not yet in a tab; so their ids are distinct. */
  lemma BatchFacts(urls: seq<string>)
    ensures var q := Batch(urls);
      && |q| == |urls|
      && (forall i | 0 <= i < |q| :: q[i].id == i + 1 && q[i].url == urls[i]
                                    && q[i].retries == 0 && q[i].tabId == None && q[i].startedAt == None)
      && DistinctIds(q)
  {
  }

  /** START_QUEUE is refused, with nothing changed, while `activeTasks` has a
      key; otherwise the new batch starts from a clean state, so the invariant
      holds and the tasks of the state are exactly the batch's. */
  lemma StartQueueFacts(s: State, urls: seq<string>, launch: nat -> Option<TabId>, now: int)
    ensures var (r, resp) := OnStartQueue(s, urls, launch, now);
      && (|s.activeTasks| > 0 ==> r == s && resp == Refused("Tasks already running"))
      && (|s.activeTasks| == 0 ==>
            && resp == Ack("started")
            && Inv(r) && Count(r) == |urls|
            && |r.activeTasks| <= MAX_CONCURRENT
            && r.completedCount == 0 && !r.paused
            && r.initialized == s.initialized && r.scheduling == s.scheduling)
  {
    if |s.activeTasks| == 0 {
      var reset := s.(queue := Batch(urls), retryQueue := [], activeTasks := map[],
                      completedCount := 0, failedCount := 0, paused := false);
      BatchFacts(urls);
      assert Pending(reset) == Batch(urls);
      assert Inv(reset);
      SchedulePreserves(reset, launch, now);
    }
  }

  /** Every state with a placeholder-free active map reports it in full. */
  lemma RealKeysAll(m: map<Key, Task>)
    requires NoPlaceholders(m)
    ensures |RealKeys(m)| == |m|
  {
    assert RealKeys(m) == m.Keys;
  }

  /** STATUS: `active` counts only real keys; under the invariant that is the
      whole active map, so the five numbers add up to the number of tasks. */
  lemma StatusCounts(s: State)
    ensures StatusOf(s).active <= |s.activeTasks|
    ensures Inv(s) ==> StatusOf(s).active == |s.activeTasks|
    ensures Inv(s) ==> var r := StatusOf(s);
      r.pending + r.retrying + r.active + r.completed + r.failed == Count(s)
  {
    SubsetCard(RealKeys(s.activeTasks), s.activeTasks.Keys);
    if Inv(s) {
      RealKeysAll(s.activeTasks);
    }
  }

  /** Every message keeps the invariant and the capacity bound; all but an
      accepted START_QUEUE keep the number of tasks, and an accepted one sets
      it to the size of the new batch. */
  lemma OnMessagePreserves(s: State, msg: Message, found: Option<Task>, launch: nat -> Option<TabId>, now: int)
    requires Inv(s) && |s.activeTasks| <= MAX_CONCURRENT
    requires msg.TaskDone? && Truthy(msg.senderTab) ==> Finds(s.activeTasks, msg.senderTab.value, found)
    ensures var (r, _) := OnMessage(s, msg, found, launch, now);
      && Inv(r) && |r.activeTasks| <= MAX_CONCURRENT
      && Count(r) == (if msg.StartQueue? && |s.activeTasks| == 0 then |msg.urls| else Count(s))
  {
    match msg
    case TaskDone(sender) =>
      if Truthy(sender) { CompleteByTabPreserves(s, sender.value, found, launch, now); }
    case StartQueue(urls) => StartQueueFacts(s, urls, launch, now);
    case Pause =>
    case Resume => SchedulePreserves(s.(paused := false), launch, now);
    case Status =>
    case Other(_) =>
  }

  /** A message type the listener has no case for changes nothing and gets
      no reply; this includes the content script's GET_REDIRECT_INFO request. */
  lemma UnhandledMessageIgnored(s: State, kind: string, found: Option<Task>, launch: nat -> Option<TabId>, now: int)
    ensures OnMessage(s, Other(kind), found, launch, now) == (s, None)
  {
  }

  /** The content script is injected at most once per tab: after an
      injection, every later update of that tab is a no-op until the tab's
      task completes. */
  lemma InjectOncePerTab(s: State, tab: TabId, complete: bool, again: bool)
    requires OnUpdated(s, tab, complete).1
    ensures var r := OnUpdated(s, tab, complete).0;
      && tab in r.injectedTabs && r == s.(injectedTabs := s.injectedTabs + {tab})
      && OnUpdated(r, tab, again) == (r, false)
  {
  }

  /** Injection needs a finished load, a fresh tab and an active task on it. */
  lemma InjectIff(s: State, tab: TabId, complete: bool)
    ensures OnUpdated(s, tab, complete).1 <==>
      complete && tab !in s.injectedTabs && exists k :: k in s.activeTasks && s.activeTasks[k].tabId == Some(tab)
    ensures !OnUpdated(s, tab, complete).1 ==> OnUpdated(s, tab, complete).0 == s
  {
  }

  /* ---------- Restore ---------- */

  function StoredKeys(stored: seq<Task>): set<Key> {
    set i | 0 <= i < |stored| :: Real(stored[i].id)
  }

  function IdsOf(q: seq<Task>): set<int> {
    set i | 0 <= i < |q| :: q[i].id
  }

  lemma DistinctLast(a: seq<Task>, t: Task)
    requires DistinctIds(a + [t])
    ensures DistinctIds(a) && t.id !in IdsOf(a)
  {
    var b := a + [t];
    assert forall i | 0 <= i < |a| :: b[i] == a[i];
    assert b[|a|] == t;
  }

  lemma IdsOfConcat(a: seq<Task>, b: seq<Task>)
    ensures IdsOf(a + b) == IdsOf(a) + IdsOf(b)
  {
    var c := a + b;
    forall x | x in IdsOf(c) ensures x in IdsOf(a) + IdsOf(b) {
      var i :| 0 <= i < |c| && c[i].id == x;
      if i >= |a| { assert c[i] == b[i - |a|]; }
    }
    forall x | x in IdsOf(a) + IdsOf(b) ensures x in IdsOf(c) {
      if x in IdsOf(a) {
        var i :| 0 <= i < |a| && a[i].id == x;
        assert c[i] == a[i];
      } else {
        var i :| 0 <= i < |b| && b[i].id == x;
        assert c[|a| + i] == b[i];
      }
    }
  }

  /** One turn of the reconciliation loop on a task that is nowhere yet: it
      becomes active under its own id when live, else it is failed once. */
  lemma ReconcileOneFacts(m: State, t: Task, live: set<TabId>, now: int)
    requires Inv(m) && Fresh(m, t.id)
    ensures var r := ReconcileOne(m, t, live, now);
      && Inv(r)
      && Count(r) == Count(m) + 1
      && IdsOf(Pending(r)) <= IdsOf(Pending(m)) + {t.id}
  {
    if LiveTask(t, live) {
      ReconcileLiveFacts(m, t, live);
    } else {
      ReconcileDeadFacts(m, t, live, now);
    }
  }

  lemma ReconcileLiveFacts(m: State, t: Task, live: set<TabId>)
    requires Inv(m) && Fresh(m, t.id)
    ensures var r := m.(activeTasks := m.activeTasks[Real(t.id) := t]);
      Inv(r) && Count(r) == Count(m) + 1
  {
    var r := m.(activeTasks := m.activeTasks[Real(t.id) := t]);
    assert Pending(r) == Pending(m);
    forall i | 0 <= i < |Pending(r)| ensures Real(Pending(r)[i].id) !in r.activeTasks {
      assert Pending(r)[i].id != t.id;
    }
  }

  lemma ReconcileDeadFacts(m: State, t: Task, live: set<TabId>, now: int)
    requires Inv(m) && Fresh(m, t.id)
    ensures var r := HandleFailure(m, FoldElapsed(t, now).(tabId := None), now);
      && Inv(r)
      && Count(r) == Count(m) + 1
      && IdsOf(Pending(r)) <= IdsOf(Pending(m)) + {t.id}
  {
    var f := FoldElapsed(t, now).(tabId := None);
    HandleFailurePreserves(m, f, now);
    var r := HandleFailure(m, f, now);
    if Failed(f, now).retries <= MAX_RETRIES {
      assert Pending(r) == Pending(m) + [Failed(f, now)];
      IdsOfConcat(Pending(m), [Failed(f, now)]);
      assert [Failed(f, now)][0].id == t.id;
      assert IdsOf([Failed(f, now)]) == {t.id};
    }
  }

  /** The keys reconciliation adds for the live stored tasks. */
  function LiveKeys(stored: seq<Task>, live: set<TabId>): set<Key> {
    set i | 0 <= i < |stored| && LiveTask(stored[i], live) :: Real(stored[i].id)
  }

  lemma LiveKeysLast(stored: seq<Task>, live: set<TabId>)
    requires stored != []
    ensures var n := |stored| - 1;
      LiveKeys(stored, live) == LiveKeys(stored[..n], live) + (if LiveTask(stored[n], live) then {Real(stored[n].id)} else {})
  {
    var n := |stored| - 1;
    assert forall i | 0 <= i < n :: stored[..n][i] == stored[i];
  }

  lemma LiveKeysIds(stored: seq<Task>, live: set<TabId>, id: int)
    requires id !in IdsOf(stored)
    ensures Real(id) !in LiveKeys(stored, live)
  {
  }

  /** Reconciliation only adds the keys of the live stored tasks and touches
      nothing but the retry queue, the active map and `failedCount`. */
  lemma {:induction false} ReconcileKeys(s: State, stored: seq<Task>, live: set<TabId>, now: int)
    ensures var r := Reconcile(s, stored, live, now);
      && r.activeTasks.Keys == s.activeTasks.Keys + LiveKeys(stored, live)
      && r.queue == s.queue && SameOutsideQueues(s, r)
    decreases |stored|
  {
    if stored != [] {
      var n := |stored| - 1;
      ReconcileKeys(s, stored[..n], live, now);
      LiveKeysLast(stored, live);
    }
  }

  /** Each live stored task ends up under its own id, and the tasks that were
      active before keep their entries, when all ids are distinct. */
  lemma {:induction false} ReconcileValues(s: State, stored: seq<Task>, live: set<TabId>, now: int)
    requires DistinctIds(stored)
    requires forall i | 0 <= i < |stored| :: Real(stored[i].id) !in s.activeTasks
    ensures var r := Reconcile(s, stored, live, now);
      && (forall i | 0 <= i < |stored| && LiveTask(stored[i], live) ::
            Real(stored[i].id) in r.activeTasks && r.activeTasks[Real(stored[i].id)] == stored[i])
      && (forall k | k in s.activeTasks :: k in r.activeTasks && r.activeTasks[k] == s.activeTasks[k])
    decreases |stored|
  {
    if stored != [] {
      var n := |stored| - 1;
      var init := stored[..n];
      var t := stored[n];
      assert stored == init + [t];
      DistinctLast(init, t);
      ReconcileValues(s, init, live, now);
      var m := Reconcile(s, init, live, now);
      forall i | 0 <= i < |stored| && LiveTask(stored[i], live)
        ensures Real(stored[i].id) in Reconcile(s, stored, live, now).activeTasks
        ensures Reconcile(s, stored, live, now).activeTasks[Real(stored[i].id)] == stored[i]
      {
        if i < n {
          assert init[i] == stored[i];
          assert stored[i].id in IdsOf(init);
        }
      }
      forall k | k in s.activeTasks
        ensures Reconcile(s, stored, live, now).activeTasks[k] == s.activeTasks[k]
      {
        assert k != Real(t.id);
      }
    }
  }

  /** Reconciliation keeps the invariant and accounts for every stored task
      once, when the stored ids are new and distinct. */
  lemma {:induction false} ReconcilePreserves(s: State, stored: seq<Task>, live: set<TabId>, now: int)
    requires Inv(s)
    requires DistinctIds(Pending(s) + stored)
    requires forall i | 0 <= i < |stored| :: Real(stored[i].id) !in s.activeTasks
    ensures var r := Reconcile(s, stored, live, now);
      && Inv(r)
      && Count(r) == Count(s) + |stored|
      && IdsOf(Pending(r)) <= IdsOf(Pending(s)) + IdsOf(stored)
    decreases |stored|
  {
    if stored != [] {
      var n := |stored| - 1;
      var init := stored[..n];
      var t := stored[n];
      assert stored == init + [t];
      assert Pending(s) + stored == (Pending(s) + init) + [t];
      DistinctLast(Pending(s) + init, t);
      IdsOfConcat(Pending(s), init);
      IdsOfConcat(init, [t]);
      assert [t][0] == t;
      assert IdsOf([t]) == {t.id};
      ReconcilePreserves(s, init, live, now);
      ReconcileKeys(s, init, live, now);
      var m := Reconcile(s, init, live, now);
      LiveKeysIds(init, live, t.id);
      assert Fresh(m, t.id) by {
        forall i | 0 <= i < |Pending(m)| ensures Pending(m)[i].id != t.id {
          assert Pending(m)[i].id in IdsOf(Pending(m));
        }
      }
      ReconcileOneFacts(m, t, live, now);
    }
  }

  lemma DistinctSplit(a: seq<Task>, b: seq<Task>)
    requires DistinctIds(a + b)
    ensures DistinctIds(a) && DistinctIds(b) && IdsOf(a) !! IdsOf(b)
  {
    var c := a + b;
    assert forall i | 0 <= i < |a| :: c[i] == a[i];
    assert forall i | 0 <= i < |b| :: c[|a| + i] == b[i];
    forall x | x in IdsOf(a) ensures x !in IdsOf(b) {
      var i :| 0 <= i < |a| && a[i].id == x;
    }
  }

  lemma {:induction false} LiveKeysCard(stored: seq<Task>, live: set<TabId>)
    ensures |LiveKeys(stored, live)| <= |stored|
    decreases |stored|
  {
    if stored != [] {
      var n := |stored| - 1;
      LiveKeysLast(stored, live);
      LiveKeysCard(stored[..n], live);
    }
  }

  /** The loaded state of a consistent snapshot satisfies the invariant, and
      its stored active tasks are new and distinct. */
  lemma LoadFacts(s: State, snap: Snapshot)
    requires Consistent(snap)
    ensures var l := Load(s, snap);
      var stored := snap.activeTasks.GetOr([]);
      && Inv(l)
      && DistinctIds(Pending(l) + stored)
      && DistinctIds(stored)
      && (forall i | 0 <= i < |stored| :: Real(stored[i].id) !in l.activeTasks)
      && Count(l) + |stored| == SnapshotSize(snap)
  {
    var stored := snap.activeTasks.GetOr([]);
    var l := Load(s, snap);
    assert Pending(l) + stored == snap.queue.GetOr([]) + snap.retryQueue.GetOr([]) + stored;
    DistinctSplit(Pending(l), stored);
  }

  /** Start-up recovery from a consistent snapshot: every stored task is
      accounted for exactly once, the invariant and the capacity bound hold,
      and the flags and counters are those stored. */
  lemma RestoreEstablishes(s: State, snap: Snapshot, live: set<TabId>, now: int, launch: nat -> Option<TabId>)
    requires Consistent(snap)
    ensures var r := Restore(s, snap, live, now, launch);
      && Inv(r) && Count(r) == SnapshotSize(snap)
      && |r.activeTasks| <= MAX_CONCURRENT
      && r.initialized
      && r.paused == snap.paused.GetOr(false)
      && r.completedCount == snap.completedCount.GetOr(0)
      && r.scheduling == s.scheduling && r.injectedTabs == s.injectedTabs
  {
    var stored := snap.activeTasks.GetOr([]);
    var l := Load(s, snap);
    LoadFacts(s, snap);
    ReconcilePreserves(l, stored, live, now);
    ReconcileKeys(l, stored, live, now);
    LiveKeysCard(stored, live);
    var m := Reconcile(l, stored, live, now).(initialized := true);
    assert |m.activeTasks| == |m.activeTasks.Keys|;
    SchedulePreserves(m, launch, now);
  }

  /** Reconciliation keeps a stored active task, under its own id, exactly
      when its tab id is truthy and the tab is still open; and when the
      snapshot is paused, restoring dispatches nothing after it. */
  lemma ReconcileKeepsLive(s: State, snap: Snapshot, live: set<TabId>, now: int, launch: nat -> Option<TabId>, i: nat)
    requires Consistent(snap)
    requires i < |snap.activeTasks.GetOr([])|
    ensures var stored := snap.activeTasks.GetOr([]);
      var r := Reconcile(Load(s, snap), stored, live, now);
      && (Real(stored[i].id) in r.activeTasks <==> LiveTask(stored[i], live))
      && (LiveTask(stored[i], live) ==> r.activeTasks[Real(stored[i].id)] == stored[i])
      && (snap.paused == Some(true) ==> Restore(s, snap, live, now, launch) == r.(initialized := true))
  {
    var stored := snap.activeTasks.GetOr([]);
    var l := Load(s, snap);
    LoadFacts(s, snap);
    ReconcileKeys(l, stored, live, now);
    ReconcileValues(l, stored, live, now);
    var r := Reconcile(l, stored, live, now);
    if Real(stored[i].id) in r.activeTasks {
      var j :| 0 <= j < |stored| && LiveTask(stored[j], live) && Real(stored[j].id) == Real(stored[i].id);
      assert j == i;
    }
  }

  /** A stored task whose tab is gone, as `handleFailure` leaves it: its time
      folded, its tab cleared and one more failure counted. */
  function Orphaned(t: Task, now: int): Task {
    Failed(FoldElapsed(t, now).(tabId := None), now)
  }

  lemma OrphanedFields(t: Task, now: int)
    ensures var f := Orphaned(t, now);
      && f.id == t.id && f.url == t.url
      && f.retries == t.retries + 1
      && f.tabId == None && !Truthy(f.startedAt)
      && f.totalTimeMs == t.totalTimeMs + (if Truthy(t.startedAt) then now - t.startedAt.value else 0)
  {
  }

  /** The stored tasks with a dead tab that still have retries left, in
      stored order and in their failed form. */
  function DeadRetried(stored: seq<Task>, live: set<TabId>, now: int): seq<Task>
    decreases |stored|
  {
    if stored == [] then []
    else
      var n := |stored| - 1;
      var f := Orphaned(stored[n], now);
      DeadRetried(stored[..n], live, now)
        + (if !LiveTask(stored[n], live) && f.retries <= MAX_RETRIES then [f] else [])
  }

  /** How many stored tasks with a dead tab have used up their retries. */
  function Exhausted(stored: seq<Task>, live: set<TabId>, now: int): nat
    decreases |stored|
  {
    if stored == [] then 0
    else
      var n := |stored| - 1;
      Exhausted(stored[..n], live, now)
        + (if !LiveTask(stored[n], live) && Orphaned(stored[n], now).retries > MAX_RETRIES then 1 else 0)
  }

  /** Where the stored tasks with a dead tab go: those with retries left are
      appended, in order and in their failed form, to the retry queue; the
      others are counted in `failedCount`. */
  lemma {:induction false} ReconcileDeadTasks(s: State, stored: seq<Task>, live: set<TabId>, now: int)
    ensures var r := Reconcile(s, stored, live, now);
      && r.retryQueue == s.retryQueue + DeadRetried(stored, live, now)
      && r.failedCount == s.failedCount + Exhausted(stored, live, now)
    decreases |stored|
  {
    if stored != [] {
      var n := |stored| - 1;
      ReconcileDeadTasks(s, stored[..n], live, now);
    }
  }

  /** `x` is the failed form of the `i`-th stored task, whose tab is dead and
      which still has retries left. */
  ghost predicate RetriedFrom(stored: seq<Task>, live: set<TabId>, now: int, i: int, x: Task) {
    && 0 <= i < |stored|
    && !LiveTask(stored[i], live)
    && x == Orphaned(stored[i], now)
    && x.retries <= MAX_RETRIES
  }

  /** The re-queued tasks are exactly the failed forms of the stored tasks
      with a dead tab and at most MAX_RETRIES retries. */
  lemma {:induction false} DeadRetriedMembers(stored: seq<Task>, live: set<TabId>, now: int)
    ensures forall x :: x in DeadRetried(stored, live, now) <==> exists i :: RetriedFrom(stored, live, now, i, x)
    decreases |stored|
  {
    if stored != [] {
      var n := |stored| - 1;
      var init := stored[..n];
      var d := DeadRetried(stored, live, now);
      var d0 := DeadRetried(init, live, now);
      DeadRetriedMembers(init, live, now);
      forall x | x in d ensures exists i :: RetriedFrom(stored, live, now, i, x) {
        if x in d0 {
          var i :| RetriedFrom(init, live, now, i, x);
          assert init[i] == stored[i];
          assert RetriedFrom(stored, live, now, i, x);
        } else {
          assert RetriedFrom(stored, live, now, n, x);
        }
      }
      forall x, i | RetriedFrom(stored, live, now, i, x) ensures x in d {
        if i < n {
          assert init[i] == stored[i];
          assert RetriedFrom(init, live, now, i, x);
        }
      }
    }
  }
}
