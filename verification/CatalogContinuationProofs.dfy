/** What holds of a catalogue synchronisation whoever controls it and in whatever order. */
module CatalogContinuationProofs {
  import opened Wrappers
  import opened CatalogContinuation

  lemma EnqueueKeepsInv(s: State, key: TaskKey)
    requires Inv(s) && !SomeActive(s.tasks) && (key.Auto? ==> key.checkpoint == s.sync.checkpoint)
    ensures Inv(Enqueue(s, key))
  {
  }

  /** Updates of one task's row by the queue, its workers and whoever holds or frees it. */
  predicate OfTheQueue(a: Action) {
    a.DoClaim? || a.DoHeartbeat? || a.DoRelease? || a.DoRecover? || a.DoWithdraw? || a.DoHold? || a.DoFree? || a.DoBegin? || a.DoCommit?
  }

  lemma TaskUpdateKeepsInv(s: State, a: Action)
    requires Inv(s) && Enabled(s, a)
    requires a.DoTick? || OfTheQueue(a)
    ensures Inv(Next(s, a))
  {
    hide Inv;
    if a.DoTick? {
      ClockKeepsInv(s, a.now);
    } else {
      TaskFacts(s, a.task);
      var t := Next(s, a);
      assert t.tasks == s.tasks[a.task := t.tasks[a.task]];
      RewrittenKeepsInv(s, t, a.task, t.tasks[a.task]);
    }
  }

  lemma ClockKeepsInv(s: State, now: int)
    requires Inv(s)
    ensures Inv(s.(now := now))
  {
  }

  lemma TaskFacts(s: State, k: TaskKey)
    requires Inv(s) && k in s.tasks
    ensures s.tasks[k].begun ==> s.tasks[k].status.Running? && !Halted(s.sync.status)
    ensures s.tasks[k].token.Some? ==> s.tasks[k].token.value < s.issued
  {
  }

  /** One task's row is written, without making it active or changing its checkpoint. */
  lemma RewrittenKeepsInv(s: State, t: State, k: TaskKey, u: Task)
    requires Inv(s) && k in s.tasks && t.tasks == s.tasks[k := u] && t.issued >= s.issued
    requires Active(u) ==> Active(s.tasks[k])
    requires u.checkpoint == s.tasks[k].checkpoint && (u.token.Some? ==> u.token.value < t.issued)
    requires u.begun ==> u.status.Running? && !Halted(t.sync.status)
    requires Halted(t.sync.status) ==> Halted(s.sync.status)
    ensures Inv(t)
  {
  }

  ghost predicate Relabelled(before: map<TaskKey, Task>, after: map<TaskKey, Task>) {
    && after.Keys == before.Keys
    && forall k :: k in before ==>
         && after[k].token == before[k].token && after[k].checkpoint == before[k].checkpoint && after[k].begun == before[k].begun
         && (after[k].status == before[k].status || (before[k].status.Queued? && after[k].status.Withdrawn?))
  }

  lemma HoldsOnlyRelabel(tasks: map<TaskKey, Task>, from: Hold, to: Hold)
    ensures Relabelled(tasks, WithHold(tasks, from, to))
    ensures Relabelled(tasks, WithdrawQueued(tasks))
  {
  }

  /** Holding, releasing or withdrawing queued tasks, with a new row status that halts only when no
      task is running. */
  lemma RelabelKeepsInv(s: State, t: State)
    requires Inv(s) && Relabelled(s.tasks, t.tasks) && t.issued == s.issued
    requires Halted(t.sync.status) ==> Halted(s.sync.status) || !SomeRunning(s.tasks)
    ensures Inv(t)
  {
    forall k | k in t.tasks && t.tasks[k].begun
      ensures !Halted(t.sync.status)
    {
      assert s.tasks[k].begun && s.tasks[k].status.Running?;
    }
  }

  lemma CoordinateKeepsInv(s: State, sourceBlocked: bool)
    requires Inv(s)
    ensures Inv(Coordinate(s, sourceBlocked))
  {
    hide SomeActive, SomeRunning, Inv;
    var t := Coordinate(s, sourceBlocked);
    SameTasks(s.tasks);
    if t.tasks == s.tasks {
      if !t.sync.status.Ready? && s.sync.status.Ready? {
        IdleIsNotRunning(s.tasks);
      }
      RelabelKeepsInv(s, t);
    } else {
      EnqueueKeepsInv(s, Auto(s.sync.checkpoint));
    }
  }

  lemma SameTasks(tasks: map<TaskKey, Task>)
    ensures Relabelled(tasks, tasks)
  {
  }

  lemma IdleIsNotRunning(tasks: map<TaskKey, Task>)
    ensures !SomeActive(tasks) ==> !SomeRunning(tasks)
  {
    if k :| k in tasks && tasks[k].status.Running? {
      assert Active(tasks[k]);
    }
  }

  lemma RequestKeepsInv(s: State, a: Action)
    requires Inv(s)
    requires a.DoPause? || a.DoResume? || a.DoContinue? || a.DoRetry?
    ensures Inv(Next(s, a))
  {
    hide SomeActive, SomeRunning, Enqueue, Inv, WithHold, Touched, Relabelled;
    HoldsOnlyRelabel(s.tasks, NoHold, SyncPaused);
    HoldsOnlyRelabel(s.tasks, SyncPaused, NoHold);
    SameTasks(s.tasks);
    match a
    case DoPause(key, latest) => RelabelKeepsInv(s, Next(s, a));
    case DoResume(key, latest, _) =>
      var released := WithHold(s.tasks, SyncPaused, NoHold);
      var after := s.(tasks := released, lastUpdated := Touched(s, released, latest), audited := s.audited[key := false],
                      sync := s.sync.(pauseRequested := false, status := Ready));
      RelabelKeepsInv(s, after);
      if !SomeActive(released) {
        EnqueueKeepsInv(after, Named(key));
      }
    case DoContinue(key) =>
      if !SomeActive(s.tasks) {
        EnqueueKeepsInv(s, Named(key));
      }
    case DoRetry(key, retried) =>
      if Retry(s, key, retried).Success? && Named(key) !in s.tasks {
        RetryKeepsInv(s, key, retried);
      }
  }

  lemma RetryKeepsInv(s: State, key: string, retried: TaskKey)
    requires Inv(s) && retried in s.tasks && Named(key) !in s.tasks && !SomeActive(s.tasks)
    ensures Inv(s.(tasks := s.tasks[Named(key) := NewTask(s.sync).(checkpoint := s.tasks[retried].checkpoint)], lastUpdated := Named(key)))
  {
  }

  lemma SameRows(s: State)
    ensures Inv(s) ==> Inv(CampaignResumed(s))
  {
  }

  lemma CycleKeepsInv(s: State, a: Action)
    requires Inv(s)
    requires a.DoCampaignPause? || a.DoCampaignResume? || a.DoCampaignCancel? || a.DoWeeklyCancel?
    ensures Inv(Next(s, a))
  {
    hide SomeActive, SomeRunning, Enqueue, Inv, WithHold, WithdrawQueued, Touched, Relabelled;
    HoldsOnlyRelabel(s.tasks, NoHold, CampaignPaused);
    HoldsOnlyRelabel(s.tasks, CampaignPaused, NoHold);
    SameTasks(s.tasks);
    match a
    case DoCampaignPause(_) => RelabelKeepsInv(s, Next(s, a));
    case DoCampaignResume(key, latest) =>
      var released := WithHold(s.tasks, CampaignPaused, NoHold);
      var resumed := s.(tasks := released, lastUpdated := Touched(s, released, latest));
      var ready := resumed.(sync := s.sync.(pauseRequested := false, status := Ready));
      RelabelKeepsInv(s, resumed);
      RelabelKeepsInv(s, ready);
      if !SomeActive(released) {
        EnqueueKeepsInv(ready, Named(key));
      }
      SameRows(resumed);
      SameRows(ready);
      SameRows(Enqueue(ready, Named(key)));
    case DoCampaignCancel(_) => RelabelKeepsInv(s, Next(s, a));
    case DoWeeklyCancel(_) => RelabelKeepsInv(s, Next(s, a));
  }

  lemma NextKeepsInv(s: State, a: Action)
    requires Inv(s)
    ensures Inv(Next(s, a))
  {
    hide Inv, Coordinate, Pause, Resume, Continue, Retry, CampaignPause, CampaignResume, CampaignCancel, WeeklyCancel, LeaseLive;
    if Enabled(s, a) {
      match a
      case DoCoordinate(sourceBlocked) => CoordinateKeepsInv(s, sourceBlocked);
      case DoPause(_, _) => RequestKeepsInv(s, a);
      case DoResume(_, _, _) => RequestKeepsInv(s, a);
      case DoContinue(_) => RequestKeepsInv(s, a);
      case DoRetry(_, _) => RequestKeepsInv(s, a);
      case DoCampaignPause(_) => CycleKeepsInv(s, a);
      case DoCampaignResume(_, _) => CycleKeepsInv(s, a);
      case DoCampaignCancel(_) => CycleKeepsInv(s, a);
      case DoWeeklyCancel(_) => CycleKeepsInv(s, a);
      case _ => TaskUpdateKeepsInv(s, a);
    }
  }

  lemma {:induction false} RunKeepsInv(now: int, key: string, autoContinue: bool, actions: seq<Action>)
    ensures Inv(Run(Create(now, key, autoContinue), actions))
  {
    hide Next;
    if actions != [] {
      RunKeepsInv(now, key, autoContinue, actions[..|actions| - 1]);
      NextKeepsInv(Run(Create(now, key, autoContinue), actions[..|actions| - 1]), actions[|actions| - 1]);
    }
  }

  // --- What every run promises --------------------------------------------------------------

  /** A synchronisation never has two discovery tasks queued or running. */
  lemma OneDiscoveryTask(now: int, key: string, autoContinue: bool, actions: seq<Action>, a: TaskKey, b: TaskKey)
    ensures var tasks := Run(Create(now, key, autoContinue), actions).tasks;
            a in tasks && b in tasks && Active(tasks[a]) && Active(tasks[b]) ==> a == b
  {
    hide Run;
    RunKeepsInv(now, key, autoContinue, actions);
  }

  /** It is never set paused or cancelled while one of its tasks is running. */
  lemma NeverHaltedUnderAWorker(s: State, a: Action)
    requires !Halted(s.sync.status) && Halted(Next(s, a).sync.status)
    ensures !SomeRunning(s.tasks)
  {
    hide WithHold, WithdrawQueued, Touched, SomeRunning, SomeActive, LeaseLive;
    IdleIsNotRunning(s.tasks);
  }

  /** While it is paused or cancelled its page, cursor and snapshot never change, even if a task left
      queued by a failure or a recovery is claimed meanwhile: its worker finds the row not ready. */
  lemma HaltedCheckpointIsFrozen(now: int, key: string, autoContinue: bool, actions: seq<Action>, a: Action)
    requires Halted(Run(Create(now, key, autoContinue), actions).sync.status)
    ensures var s := Run(Create(now, key, autoContinue), actions);
            Next(s, a).sync.checkpoint == s.sync.checkpoint
  {
    hide Run, WithHold, WithdrawQueued, Touched, SomeRunning, SomeActive;
    RunKeepsInv(now, key, autoContinue, actions);
  }

  /** Only the worker holding the live lease of the one running task, having found the row ready, ever
      moves the checkpoint. */
  lemma OnlyTheReadyWorkerWrites(s: State, a: Action)
    requires Inv(s) && Next(s, a).sync.checkpoint != s.sync.checkpoint
    ensures a.DoCommit? && LeaseLive(s, a.task, a.token) && s.tasks[a.task].begun && !Halted(s.sync.status)
    ensures forall k :: k in s.tasks && Active(s.tasks[k]) ==> k == a.task
  {
    hide WithHold, WithdrawQueued, Touched, SomeRunning, SomeActive;
  }

  /** The coordinator enqueues at most one task per checkpoint, and only after the last task completed
      from another checkpoint. If the last one left the checkpoint where it was, it stops instead. */
  lemma CoordinatorStepsForward(s: State, sourceBlocked: bool)
    requires Inv(s)
    ensures var t := Coordinate(s, sourceBlocked);
            && t.sync.checkpoint == s.sync.checkpoint
            && (t.tasks != s.tasks ==>
                  && t.tasks == s.tasks[Auto(s.sync.checkpoint) := NewTask(s.sync)] && Auto(s.sync.checkpoint) !in s.tasks
                  && s.lastUpdated in s.tasks && s.tasks[s.lastUpdated].status.Done?
                  && s.tasks[s.lastUpdated].checkpoint != s.sync.checkpoint)
            && (t.sync.status.Limited? && !s.sync.status.Limited? ==>
                  s.lastUpdated in s.tasks && s.tasks[s.lastUpdated].status.Done? && s.tasks[s.lastUpdated].checkpoint == s.sync.checkpoint)
  {
    hide SomeRunning, SomeActive;
  }

  ghost predicate CancelledForGood(s: State) {
    s.sync.cancelled && s.sync.campaignOver && s.sync.status.Cancelled? && forall k :: k in s.tasks ==> !Active(s.tasks[k])
  }

  /** A cancelled campaign's synchronisation stays cancelled, with no task queued or running, for good. */
  lemma CancellationIsFinal(s: State, a: Action)
    requires Inv(s) && CancelledForGood(s) && !a.DoWeeklyCancel?
    ensures CancelledForGood(Next(s, a)) && Next(s, a).sync == s.sync
  {
    hide Touched;
  }

  lemma {:induction false} CancelledForGoodInEveryRun(s: State, actions: seq<Action>)
    requires Inv(s) && CancelledForGood(s) && forall n :: 0 <= n < |actions| ==> !actions[n].DoWeeklyCancel?
    ensures Inv(Run(s, actions)) && CancelledForGood(Run(s, actions)) && Run(s, actions).sync == s.sync
  {
    hide Next, Inv;
    if actions != [] {
      var n := |actions| - 1;
      CancelledForGoodInEveryRun(s, actions[..n]);
      NextKeepsInv(Run(s, actions[..n]), actions[n]);
      CancellationIsFinal(Run(s, actions[..n]), actions[n]);
    }
  }

  /** A pause leaves no task that a worker could claim, unless one is running at that moment. */
  lemma PauseHoldsTheQueue(s: State, key: string, latest: TaskKey)
    requires Inv(s) && key !in s.audited && !s.sync.pauseRequested && Pause(s, key, latest).Success?
    ensures var t := Pause(s, key, latest).value;
            && t.sync.pauseRequested
            && (forall k :: k in t.tasks ==> !(t.tasks[k].status.Queued? && t.tasks[k].hold.NoHold?))
            && (t.sync.status.Paused? <==> !SomeRunning(t.tasks))
  {
    hide Touched;
    var held := WithHold(s.tasks, NoHold, SyncPaused);
    assert SomeRunning(held) <==> SomeRunning(s.tasks) by {
      if k :| k in s.tasks && s.tasks[k].status.Running? {
        assert held[k].status.Running?;
      }
      if k :| k in held && held[k].status.Running? {
        assert s.tasks[k].status.Running?;
      }
    }
  }

  /** Resuming a paused synchronisation undoes the pause: the row is ready, and exactly the queued
      tasks the pause held are free again, or one new task continues the checkpoint. */
  lemma ResumeUndoesPause(s: State, p: string, r: string, latest: TaskKey, sameRequest: bool)
    requires Inv(s) && p != r && p !in s.audited && r !in s.audited && Named(r) !in s.tasks
    requires !s.sync.pauseRequested && s.sync.status.Ready? && Pause(s, p, latest).Success?
    requires forall k :: k in s.tasks ==> !s.tasks[k].hold.SyncPaused?
    ensures var resumed := Resume(Pause(s, p, latest).value, r, latest, sameRequest);
            && resumed.Success? && resumed.value.sync == s.sync
            && (if SomeActive(s.tasks) then resumed.value.tasks == s.tasks
                else resumed.value.tasks == s.tasks[Named(r) := NewTask(s.sync)])
  {
    hide Touched, SomeRunning;
    var held := WithHold(s.tasks, NoHold, SyncPaused);
    var back := WithHold(held, SyncPaused, NoHold);
    assert back == s.tasks;
  }

  lemma HoldsKeepActivity(tasks: map<TaskKey, Task>, from: Hold, to: Hold)
    ensures SomeActive(WithHold(tasks, from, to)) <==> SomeActive(tasks)
  {
    var held := WithHold(tasks, from, to);
    if k :| k in tasks && Active(tasks[k]) {
      assert Active(held[k]);
    }
    if k :| k in held && Active(held[k]) {
      assert Active(tasks[k]);
    }
  }

  // --- Pauses that leave work about ---------------------------------------------------------

  /** Some task is queued with nothing holding it, or running. */
  ghost predicate Unquiet(tasks: map<TaskKey, Task>) {
    exists k :: k in tasks && (tasks[k].status.Running? || (tasks[k].status.Queued? && tasks[k].hold.NoHold?))
  }

  lemma HoldsQuieten(tasks: map<TaskKey, Task>, to: Hold)
    requires !to.NoHold? && !SomeRunning(tasks)
    ensures !Unquiet(WithHold(tasks, NoHold, to)) && !Unquiet(WithdrawQueued(tasks))
  {
  }

  lemma IdleIsQuiet(tasks: map<TaskKey, Task>)
    ensures !SomeActive(tasks) ==> !Unquiet(tasks)
  {
    if k :| k in tasks && Active(tasks[k]) {
    }
    if Unquiet(tasks) {
      var k :| k in tasks && (tasks[k].status.Running? || (tasks[k].status.Queued? && tasks[k].hold.NoHold?));
      assert Active(tasks[k]);
    }
  }

  /** Only these halt a row. */
  lemma HaltingSteps(s: State, a: Action)
    requires !Halted(s.sync.status) && Halted(Next(s, a).sync.status)
    ensures a.DoCoordinate? || a.DoPause? || a.DoCampaignPause? || a.DoCampaignCancel? || a.DoWeeklyCancel?
  {
    hide WithHold, WithdrawQueued, Touched, SomeRunning, SomeActive, LeaseLive;
  }

  /** The step that halts the row leaves a task about if and only if it is the coordinator honouring a
      pause request that was made before some task came back to the queue unheld. */
  lemma HaltLeavesWorkIff(s: State, a: Action)
    requires !Halted(s.sync.status) && Halted(Next(s, a).sync.status)
    ensures Unquiet(Next(s, a).tasks) <==> a.DoCoordinate? && s.sync.pauseRequested && Unquiet(s.tasks)
  {
    hide Unquiet, WithHold, WithdrawQueued, Touched, SomeActive, SomeRunning, LeaseLive, Resume, Continue, Retry, CampaignResume;
    NeverHaltedUnderAWorker(s, a);
    if !a.DoCoordinate? {
      HaltingSteps(s, a);
    }
    HoldsQuieten(s.tasks, SyncPaused);
    HoldsQuieten(s.tasks, CampaignPaused);
    IdleIsQuiet(s.tasks);
  }

  /** While the row is halted, work comes about only when a held task is freed: a pause holds again
      only what nothing held before, and freeing does not look at the pause. */
  lemma HaltedRowGetsWorkIff(s: State, a: Action)
    requires Halted(s.sync.status) && Halted(Next(s, a).sync.status) && !Unquiet(s.tasks)
    ensures Unquiet(Next(s, a).tasks) <==> a.DoFree? && Enabled(s, a)
  {
    hide WithHold, WithdrawQueued, Touched, SomeActive, SomeRunning, LeaseLive, Coordinate, Pause, Resume, Continue, Retry,
      CampaignPause, CampaignResume, CampaignCancel, WeeklyCancel;
    if a.DoFree? && Enabled(s, a) {
      assert Next(s, a).tasks[a.task].status.Queued? && Next(s, a).tasks[a.task].hold.NoHold?;
    } else {
      StaysQuiet(s, a);
    }
  }

  lemma StaysQuiet(s: State, a: Action)
    requires Halted(s.sync.status) && Halted(Next(s, a).sync.status) && !Unquiet(s.tasks) && !(a.DoFree? && Enabled(s, a))
    ensures !Unquiet(Next(s, a).tasks)
  {
    hide Unquiet, Next;
    HaltedEnqueuesNothing(s, a);
    QuietThroughHolds(s.tasks, Next(s, a).tasks);
  }

  ghost predicate NothingLoosened(before: map<TaskKey, Task>, after: map<TaskKey, Task>) {
    forall k :: k in after && (after[k].status.Running? || (after[k].status.Queued? && after[k].hold.NoHold?)) ==>
      k in before && (before[k].status.Running? || (before[k].status.Queued? && before[k].hold.NoHold?))
  }

  lemma QuietThroughHolds(before: map<TaskKey, Task>, after: map<TaskKey, Task>)
    requires !Unquiet(before) && NothingLoosened(before, after)
    ensures !Unquiet(after)
  {
  }

  lemma HaltedEnqueuesNothing(s: State, a: Action)
    requires Halted(s.sync.status) && Halted(Next(s, a).sync.status) && !(a.DoFree? && Enabled(s, a))
    ensures NothingLoosened(s.tasks, Next(s, a).tasks)
  {
    hide Touched, SomeActive, SomeRunning;
    if !a.DoPause? && !a.DoCampaignPause? && !a.DoCampaignCancel? && !a.DoWeeklyCancel? {
      HaltedQueue(s, a);
    }
  }

  lemma HaltedQueue(s: State, a: Action)
    requires Halted(s.sync.status) && Halted(Next(s, a).sync.status) && !(a.DoFree? && Enabled(s, a))
    requires !a.DoPause? && !a.DoCampaignPause? && !a.DoCampaignCancel? && !a.DoWeeklyCancel?
    ensures NothingLoosened(s.tasks, Next(s, a).tasks)
  {
    hide Touched, SomeActive, SomeRunning, WithHold;
  }

  ghost predicate PausedWithWorker(s: State) {
    s.sync.status.Paused? && SomeRunning(s.tasks)
  }

  lemma RunOneMore(s: State, actions: seq<Action>, a: Action)
    ensures Run(s, actions + [a]) == Next(Run(s, actions), a)
  {
    hide Next;
    assert (actions + [a])[..|actions|] == actions;
  }

  function First(): TaskKey {
    Named("first")
  }

  /** Both kinds happen: a task that fails under the pause request, and a task deferred before it. */
  lemma PausedRunsGetWorkers() returns (failing: seq<Action>, deferred: seq<Action>)
    ensures PausedWithWorker(Run(Create(0, "first", true), failing)) && PausedWithWorker(Run(Create(0, "first", true), deferred))
  {
    failing := FailedUnderPause();
    deferred := FreedUnderPause();
  }

  lemma FailedUnderPause() returns (actions: seq<Action>)
    ensures PausedWithWorker(Run(Create(0, "first", true), actions))
  {
    hide Run, Next, Create;
    var s := Create(0, "first", true);
    var a, b, c, d, e := DoClaim(First(), 9), DoPause("pause", First()), DoRelease(First(), 0, Queued, NoHold), DoCoordinate(false), DoClaim(First(), 9);
    actions := [] + [a] + [b] + [c] + [d] + [e];
    RunNothing(s);
    RunOneMore(s, [], a);
    RunOneMore(s, [] + [a], b);
    RunOneMore(s, [] + [a] + [b], c);
    RunOneMore(s, [] + [a] + [b] + [c], d);
    RunOneMore(s, [] + [a] + [b] + [c] + [d], e);
    var s1 := ClaimExample(s);
    var s2 := PauseUnderWorkerExample(s1);
    var s3 := FailedExample(s2);
    var s4 := CoordinatorPausesExample(s3);
    ReclaimExample(s4);
  }

  lemma RunNothing(s: State)
    ensures Run(s, []) == s
  {
  }

  lemma ClaimExample(s: State) returns (t: State)
    requires s == Create(0, "first", true)
    ensures t == Next(s, DoClaim(First(), 9))
    ensures t.tasks == map[First() := Task(Running, Some(0), 9, NoHold, 0, false)] && t.issued == 1
    ensures t.now == 0 && t.sync == Sync(Ready, 0, false, true, false, false, false) && t.audited == map[] && t.lastUpdated == First()
  {
    t := Next(s, DoClaim(First(), 9));
  }

  lemma PauseUnderWorkerExample(s: State) returns (t: State)
    requires s == State(0, Sync(Ready, 0, false, true, false, false, false), map[First() := Task(Running, Some(0), 9, NoHold, 0, false)], First(), 1, map[])
    ensures t == Next(s, DoPause("pause", First()))
    ensures t.tasks == s.tasks && t.sync == s.sync.(pauseRequested := true) && t.now == 0 && t.issued == 1
  {
    hide Touched;
    assert s.tasks[First()].status.Running?;
    assert SomeRunning(s.tasks);
    t := Next(s, DoPause("pause", First()));
    assert t.tasks == s.tasks;
  }

  lemma FailedExample(s: State) returns (t: State)
    requires s.tasks == map[First() := Task(Running, Some(0), 9, NoHold, 0, false)] && s.now == 0
    ensures t == Next(s, DoRelease(First(), 0, Queued, NoHold))
    ensures t.sync == s.sync && t.tasks == map[First() := Task(Queued, None, 9, NoHold, 0, false)] && t.now == 0
  {
    t := Next(s, DoRelease(First(), 0, Queued, NoHold));
  }

  lemma CoordinatorPausesExample(s: State) returns (t: State)
    requires s.sync == Sync(Ready, 0, true, true, false, false, false)
    requires s.tasks == map[First() := Task(Queued, None, 9, NoHold, 0, false)]
    ensures t == Next(s, DoCoordinate(false)) && t == s.(sync := s.sync.(status := Paused))
  {
    t := Next(s, DoCoordinate(false));
  }

  lemma ReclaimExample(s: State)
    requires s.sync.status.Paused? && !s.sync.campaignPaused && !s.sync.campaignOver
    requires s.tasks == map[First() := Task(Queued, None, 9, NoHold, 0, false)]
    ensures PausedWithWorker(Next(s, DoClaim(First(), 9)))
  {
    assert Next(s, DoClaim(First(), 9)).tasks[First()].status.Running?;
  }

  lemma FreedUnderPause() returns (actions: seq<Action>)
    ensures PausedWithWorker(Run(Create(0, "first", true), actions))
  {
    hide Run, Next, Create;
    var s := Create(0, "first", true);
    var a, b, c, d, e := DoClaim(First(), 9), DoRelease(First(), 0, Queued, OtherHold), DoPause("pause", First()), DoFree(First()), DoClaim(First(), 9);
    actions := [] + [a] + [b] + [c] + [d] + [e];
    RunNothing(s);
    RunOneMore(s, [], a);
    RunOneMore(s, [] + [a], b);
    RunOneMore(s, [] + [a] + [b], c);
    RunOneMore(s, [] + [a] + [b] + [c], d);
    RunOneMore(s, [] + [a] + [b] + [c] + [d], e);
    var s1 := ClaimExample(s);
    var s2 := DeferredExample(s1);
    var s3 := PauseExample(s2);
    var s4 := FreedExample(s3);
    ReclaimExample(s4);
  }

  lemma DeferredExample(s: State) returns (t: State)
    requires s.tasks == map[First() := Task(Running, Some(0), 9, NoHold, 0, false)] && s.now == 0
    ensures t == Next(s, DoRelease(First(), 0, Queued, OtherHold))
    ensures t.sync == s.sync && t.tasks == map[First() := Task(Queued, None, 9, OtherHold, 0, false)] && t.audited == s.audited
  {
    t := Next(s, DoRelease(First(), 0, Queued, OtherHold));
  }

  lemma PauseExample(s: State) returns (t: State)
    requires s.sync == Sync(Ready, 0, false, true, false, false, false) && s.audited == map[]
    requires s.tasks == map[First() := Task(Queued, None, 9, OtherHold, 0, false)]
    ensures t == Next(s, DoPause("pause", First()))
    ensures t.tasks == s.tasks && t.sync == s.sync.(pauseRequested := true, status := Paused)
  {
    hide Touched;
    t := Next(s, DoPause("pause", First()));
    assert t.tasks == s.tasks;
  }

  lemma FreedExample(s: State) returns (t: State)
    requires s.tasks == map[First() := Task(Queued, None, 9, OtherHold, 0, false)]
    ensures t == Next(s, DoFree(First()))
    ensures t.sync == s.sync && t.tasks == map[First() := Task(Queued, None, 9, NoHold, 0, false)]
  {
    t := Next(s, DoFree(First()));
  }

  // --- Enqueueing under a pending pause -----------------------------------------------------

  /** While a pause request is pending, a step enqueues a task and leaves the request pending if and only
      if it retries a failed or partial task of a row that is still ready with nobody working on it. */
  lemma EnqueuedUnderPauseIff(s: State, a: Action)
    requires s.sync.pauseRequested && Next(s, a).sync.pauseRequested
    ensures (exists k :: k in Next(s, a).tasks && k !in s.tasks) <==>
              && a.DoRetry? && a.retried in s.tasks && (s.tasks[a.retried].status.Failed? || s.tasks[a.retried].status.Partial?)
              && Named(a.key) !in s.tasks && s.sync.status.Ready? && !s.sync.cancelled && !SomeActive(s.tasks)
  {
    hide Touched, SomeActive, SomeRunning, LeaseLive;
    if a.DoRetry? && Named(a.key) !in s.tasks && Retry(s, a.key, a.retried).Success? {
      assert Named(a.key) in Next(s, a).tasks;
    } else {
      NothingEnqueuedUnderPause(s, a);
    }
  }

  lemma NothingEnqueuedUnderPause(s: State, a: Action)
    requires s.sync.pauseRequested && Next(s, a).sync.pauseRequested
    requires a.DoRetry? ==> Named(a.key) in s.tasks || Retry(s, a.key, a.retried).Failure?
    ensures Next(s, a).tasks.Keys == s.tasks.Keys
  {
    hide Next;
    if OfTheQueue(a) {
      QueueStepEnqueuesNothing(s, a);
    } else if a.DoCampaignPause? || a.DoCampaignCancel? || a.DoWeeklyCancel? {
      HoldingEnqueuesNothing(s, a);
    } else {
      RequestEnqueuesNothing(s, a);
    }
  }

  lemma HoldingEnqueuesNothing(s: State, a: Action)
    requires a.DoCampaignPause? || a.DoCampaignCancel? || a.DoWeeklyCancel?
    ensures Next(s, a).tasks.Keys == s.tasks.Keys
  {
    hide Touched, SomeActive, SomeRunning, WithHold, WithdrawQueued;
    KeysKept(s.tasks, NoHold, CampaignPaused);
  }

  lemma RequestEnqueuesNothing(s: State, a: Action)
    requires s.sync.pauseRequested && Next(s, a).sync.pauseRequested
    requires !OfTheQueue(a) && !a.DoCampaignPause? && !a.DoCampaignCancel? && !a.DoWeeklyCancel?
    requires a.DoRetry? ==> Named(a.key) in s.tasks || Retry(s, a.key, a.retried).Failure?
    ensures Next(s, a).tasks.Keys == s.tasks.Keys
  {
    hide Touched, SomeActive, SomeRunning, WithHold;
    KeysKept(s.tasks, CampaignPaused, NoHold);
  }

  lemma KeysKept(tasks: map<TaskKey, Task>, from: Hold, to: Hold)
    ensures WithHold(tasks, from, to).Keys == WithdrawQueued(tasks).Keys == tasks.Keys
  {
  }

  lemma QueueStepEnqueuesNothing(s: State, a: Action)
    requires OfTheQueue(a)
    ensures Next(s, a).tasks.Keys == s.tasks.Keys
  {
  }

  /** And it happens: the retry of a task that failed after the pause request is queued, with nothing
      holding it. */
  lemma RetriedUnderPause() returns (actions: seq<Action>)
    ensures var s := Run(Create(0, "first", true), actions);
            s.sync.pauseRequested && s.sync.status.Ready? && Claimable(s, Named("again"))
  {
    hide Run, Next, Create;
    var s := Create(0, "first", true);
    var a, b, c, d := DoClaim(First(), 9), DoPause("pause", First()), DoRelease(First(), 0, Failed, NoHold), DoRetry("again", First());
    actions := [] + [a] + [b] + [c] + [d];
    RunNothing(s);
    RunOneMore(s, [], a);
    RunOneMore(s, [] + [a], b);
    RunOneMore(s, [] + [a] + [b], c);
    RunOneMore(s, [] + [a] + [b] + [c], d);
    var s1 := ClaimExample(s);
    var s2 := PauseUnderWorkerExample(s1);
    var s3 := FailedForGoodExample(s2);
    RetryExample(s3);
  }

  lemma FailedForGoodExample(s: State) returns (t: State)
    requires s.tasks == map[First() := Task(Running, Some(0), 9, NoHold, 0, false)] && s.now == 0
    ensures t == Next(s, DoRelease(First(), 0, Failed, NoHold))
    ensures t.sync == s.sync && t.tasks == map[First() := Task(Failed, None, 9, NoHold, 0, false)]
  {
    t := Next(s, DoRelease(First(), 0, Failed, NoHold));
  }

  lemma RetryExample(s: State)
    requires s.sync == Sync(Ready, 0, true, true, false, false, false)
    requires s.tasks == map[First() := Task(Failed, None, 9, NoHold, 0, false)]
    ensures var t := Next(s, DoRetry("again", First()));
            t.sync == s.sync && Claimable(t, Named("again"))
  {
    assert First() != Named("again");
  }

  // --- Resuming a paused campaign -----------------------------------------------------------

  /** A campaign's resume that finds no task of the synchronisation queued or running enqueues one, and
      that task is held by the very pause being lifted if and only if the campaign was paused. */
  lemma ResumedTaskIsHeldIff(s: State, key: string, latest: TaskKey)
    requires CampaignResume(s, key, latest).Success? && !SomeActive(s.tasks) && Named(key) !in s.tasks
    requires !s.sync.status.Completed? && !s.sync.status.Limited?
    ensures var t := CampaignResume(s, key, latest).value;
            && t.sync.status.Ready? && !t.sync.campaignPaused
            && Named(key) in t.tasks && t.tasks[Named(key)].status.Queued?
            && (t.tasks[Named(key)].hold.CampaignPaused? <==> s.sync.campaignPaused)
            && (Claimable(t, Named(key)) <==> !s.sync.campaignPaused)
            && (forall blocked :: Coordinate(t, blocked) == t)
  {
    hide Touched;
    HoldsKeepActivity(s.tasks, CampaignPaused, NoHold);
    var t := CampaignResume(s, key, latest).value;
    assert Active(t.tasks[Named(key)]);
    assert SomeActive(t.tasks);
  }

  /** And it happens: the campaign is paused under a worker that then completes, and resumed. */
  lemma ResumedTaskIsHeld() returns (actions: seq<Action>)
    ensures var s := Run(Create(0, "first", true), actions);
            && s.sync.status.Ready? && !s.sync.pauseRequested && !s.sync.campaignPaused
            && Named("again") in s.tasks && s.tasks[Named("again")].status.Queued? && s.tasks[Named("again")].hold.CampaignPaused?
  {
    hide Run, Next, Create;
    var s := Create(0, "first", true);
    var a, b, c, d := DoClaim(First(), 9), DoCampaignPause(First()), DoRelease(First(), 0, Done, NoHold), DoCampaignResume("again", First());
    actions := [] + [a] + [b] + [c] + [d];
    RunNothing(s);
    RunOneMore(s, [], a);
    RunOneMore(s, [] + [a], b);
    RunOneMore(s, [] + [a] + [b], c);
    RunOneMore(s, [] + [a] + [b] + [c], d);
    var s1 := ClaimExample(s);
    var s2 := CampaignPauseExample(s1);
    var s3 := CompletedExample(s2);
    CampaignResumeExample(s3);
  }

  lemma CampaignPauseExample(s: State) returns (t: State)
    requires s.sync == Sync(Ready, 0, false, true, false, false, false) && s.now == 0
    requires s.tasks == map[First() := Task(Running, Some(0), 9, NoHold, 0, false)]
    ensures t == Next(s, DoCampaignPause(First()))
    ensures t.tasks == s.tasks && t.sync == s.sync.(pauseRequested := true, campaignPaused := true) && t.now == 0
  {
    hide Touched;
    assert s.tasks[First()].status.Running?;
    assert SomeRunning(s.tasks);
    t := Next(s, DoCampaignPause(First()));
    assert t.tasks == s.tasks;
  }

  lemma CompletedExample(s: State) returns (t: State)
    requires s.tasks == map[First() := Task(Running, Some(0), 9, NoHold, 0, false)] && s.now == 0
    ensures t == Next(s, DoRelease(First(), 0, Done, NoHold))
    ensures t.sync == s.sync && t.tasks == map[First() := Task(Done, None, 9, NoHold, 0, false)]
  {
    t := Next(s, DoRelease(First(), 0, Done, NoHold));
  }

  lemma CampaignResumeExample(s: State)
    requires s.sync == Sync(Ready, 0, true, true, false, true, false)
    requires s.tasks == map[First() := Task(Done, None, 9, NoHold, 0, false)]
    ensures var t := Next(s, DoCampaignResume("again", First()));
            && t.sync.status.Ready? && !t.sync.pauseRequested && !t.sync.campaignPaused
            && Named("again") in t.tasks && t.tasks[Named("again")].status.Queued? && t.tasks[Named("again")].hold.CampaignPaused?
  {
    hide Touched;
    assert First() != Named("again");
    assert !SomeActive(s.tasks);
    ResumedTaskIsHeldIff(s, "again", First());
  }
}
