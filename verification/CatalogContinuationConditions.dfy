/**
 When everyone who controls a synchronisation is obeyed and what each of them leaves, said of the stored
 rows alone.
 */
module CatalogContinuationConditions {
  import opened Wrappers
  import opened CatalogContinuation
  import opened CatalogContinuationProofs

  ghost predicate Running(s: State) {
    exists k :: k in s.tasks && s.tasks[k].status.Running?
  }

  ghost predicate Working(s: State) {
    exists k :: k in s.tasks && (s.tasks[k].status.Queued? || s.tasks[k].status.Running?)
  }

  lemma SameWords(s: State)
    ensures Running(s) <==> SomeRunning(s.tasks)
    ensures Working(s) <==> SomeActive(s.tasks)
  {
    if k :| k in s.tasks && (s.tasks[k].status.Queued? || s.tasks[k].status.Running?) {
      assert Active(s.tasks[k]);
    }
  }

  /** A queued task under the one hold bears the other afterwards; every other task is as it was. */
  ghost predicate Reheld(s: State, t: State, from: Hold, to: Hold) {
    forall k :: k in s.tasks ==>
      k in t.tasks && t.tasks[k] == if s.tasks[k].status.Queued? && s.tasks[k].hold == from then s.tasks[k].(hold := to) else s.tasks[k]
  }

  /** A queued task is withdrawn; every other task is as it was. */
  ghost predicate Withdrew(s: State, t: State) {
    && t.tasks.Keys == s.tasks.Keys
    && forall k :: k in s.tasks ==>
         t.tasks[k] == if s.tasks[k].status.Queued? then s.tasks[k].(status := TaskStatus.Withdrawn) else s.tasks[k]
  }

  /** The one new task, under the key, for the checkpoint, begun by nobody. */
  ghost predicate OnlyNew(s: State, t: State, key: TaskKey, checkpoint: Checkpoint, hold: Hold) {
    && t.tasks.Keys == s.tasks.Keys + {key}
    && (key !in s.tasks ==>
          && t.tasks[key].status.Queued? && t.tasks[key].token.None? && !t.tasks[key].begun
          && t.tasks[key].checkpoint == checkpoint && t.tasks[key].hold == hold)
  }

  // --- Campaigns ----------------------------------------------------------------------------

  /** Pausing a campaign that is not over leaves no queued task free, whatever is running, and marks an
      unfinished row, which is paused at once if nothing runs. */
  lemma CampaignPauseLeaves(s: State, latest: TaskKey)
    ensures CampaignPause(s, latest).Success? <==> !s.sync.campaignOver
    ensures CampaignPause(s, latest).Success? ==>
              && var t := CampaignPause(s, latest).value;
              && t.tasks.Keys == s.tasks.Keys && Reheld(s, t, NoHold, CampaignPaused)
              && (forall k :: k in t.tasks && t.tasks[k].status.Queued? ==> !t.tasks[k].hold.NoHold?)
              && t.sync.campaignPaused
              && t.sync == s.sync.(campaignPaused := true, pauseRequested := t.sync.pauseRequested, status := t.sync.status)
              && (s.sync.status.Completed? || s.sync.status.Limited? ==>
                    t.sync.pauseRequested == s.sync.pauseRequested && t.sync.status == s.sync.status)
              && (!s.sync.status.Completed? && !s.sync.status.Limited? ==>
                    t.sync.pauseRequested && t.sync.status == if Running(s) then s.sync.status else Paused)
  {
    hide Touched, SomeRunning, Running;
    SameWords(s);
  }

  /** Resuming a campaign that is not over frees exactly the queued tasks that its pause held; tasks held
      for another reason keep their hold, and every free queued task can be claimed. Only if an unfinished
      row has no task queued or running is one enqueued, for its checkpoint. */
  lemma CampaignResumeLeaves(s: State, key: string, latest: TaskKey)
    ensures CampaignResume(s, key, latest).Success? <==> !s.sync.campaignOver
    ensures CampaignResume(s, key, latest).Success? ==>
              && var t, unfinished := CampaignResume(s, key, latest).value, !s.sync.status.Completed? && !s.sync.status.Limited?;
              && Reheld(s, t, CampaignPaused, NoHold)
              && (if unfinished && !Working(s) then
                    OnlyNew(s, t, Named(key), s.sync.checkpoint, if s.sync.campaignPaused then CampaignPaused else NoHold)
                  else t.tasks.Keys == s.tasks.Keys)
              && (forall k :: k in t.tasks && t.tasks[k].status.Queued? && t.tasks[k].hold.CampaignPaused? ==> k !in s.tasks && k == Named(key))
              && (forall k :: k in t.tasks && t.tasks[k].status.Queued? && t.tasks[k].hold.NoHold? ==> Claimable(t, k))
              && !t.sync.campaignPaused
              && t.sync == (if unfinished then s.sync.(campaignPaused := false, pauseRequested := false, status := Ready)
                            else s.sync.(campaignPaused := false))
  {
    hide CampaignResume, Working;
    CampaignResumeTasks(s, key, latest);
  }

  lemma CampaignResumeTasks(s: State, key: string, latest: TaskKey)
    ensures CampaignResume(s, key, latest).Success? <==> !s.sync.campaignOver
    ensures CampaignResume(s, key, latest).Success? ==>
              && var t, unfinished := CampaignResume(s, key, latest).value, !s.sync.status.Completed? && !s.sync.status.Limited?;
              && Reheld(s, t, CampaignPaused, NoHold)
              && (if unfinished && !Working(s) then
                    OnlyNew(s, t, Named(key), s.sync.checkpoint, if s.sync.campaignPaused then CampaignPaused else NoHold)
                  else t.tasks.Keys == s.tasks.Keys)
              && t.sync == (if unfinished then s.sync.(campaignPaused := false, pauseRequested := false, status := Ready)
                            else s.sync.(campaignPaused := false))
  {
    hide Touched, SomeActive, Working, WithHold;
    SameWords(s);
    HoldsKeepActivity(s.tasks, CampaignPaused, NoHold);
    HoldsMove(s.tasks, CampaignPaused, NoHold);
  }

  lemma HoldsMove(tasks: map<TaskKey, Task>, from: Hold, to: Hold)
    ensures WithHold(tasks, from, to).Keys == tasks.Keys
    ensures forall k :: k in tasks ==>
              WithHold(tasks, from, to)[k] == if tasks[k].status.Queued? && tasks[k].hold == from then tasks[k].(hold := to) else tasks[k]
  {
  }

  /** Pausing and resuming a campaign leaves every task as it was, and an unfinished row ready to go on. */
  lemma CampaignResumeUndoesPause(s: State, key: string, latest: TaskKey, later: TaskKey)
    requires !s.sync.campaignOver && forall k :: k in s.tasks && s.tasks[k].status.Queued? ==> !s.tasks[k].hold.CampaignPaused?
    ensures CampaignPause(s, latest).Success? && CampaignResume(CampaignPause(s, latest).value, key, later).Success?
    ensures var t := CampaignResume(CampaignPause(s, latest).value, key, later).value;
            && (forall k :: k in s.tasks ==> k in t.tasks && t.tasks[k] == s.tasks[k])
            && (Working(s) || s.sync.status.Completed? || s.sync.status.Limited? ==> t.tasks == s.tasks)
            && t.sync == (if s.sync.status.Completed? || s.sync.status.Limited? then s.sync.(campaignPaused := false)
                          else s.sync.(campaignPaused := false, pauseRequested := false, status := Ready))
  {
    hide CampaignPause, CampaignResume, Working, Running;
    CampaignPauseLeaves(s, latest);
    var paused := CampaignPause(s, latest).value;
    CampaignResumeLeaves(paused, key, later);
    WorkingKept(s, paused);
  }

  lemma WorkingKept(s: State, t: State)
    requires t.tasks.Keys == s.tasks.Keys && forall k :: k in s.tasks ==> t.tasks[k].status == s.tasks[k].status
    ensures Working(t) <==> Working(s)
  {
  }

  /** Cancelling a campaign is refused while a task of it runs; afterwards none is queued or running, and
      the row is cancelled for good. */
  lemma CampaignCancelLeaves(s: State, latest: TaskKey)
    ensures CampaignCancel(s, latest).Success? <==> !s.sync.campaignOver && !Running(s)
    ensures CampaignCancel(s, latest).Success? ==>
              && var t := CampaignCancel(s, latest).value;
              && Withdrew(s, t) && !Working(t)
              && t.sync == s.sync.(status := Cancelled, pauseRequested := false, cancelled := true, campaignOver := true)
  {
    hide Touched, SomeRunning;
    SameWords(s);
  }

  /** Cancelling the weekly occurrence is refused while a task runs; afterwards none is queued or running,
      the row goes on by itself no more, and it is cancelled unless its scope had ended. */
  lemma WeeklyCancelLeaves(s: State, latest: TaskKey)
    ensures WeeklyCancel(s, latest).Success? <==> !Running(s)
    ensures WeeklyCancel(s, latest).Success? ==>
              && var t := WeeklyCancel(s, latest).value;
              && Withdrew(s, t) && !Working(t)
              && !t.sync.autoContinue && t.sync.pauseRequested && t.sync.cancelled
              && t.sync.status == (if s.sync.status in {Completed, Limited} then s.sync.status else Cancelled)
              && t.sync == s.sync.(status := t.sync.status, autoContinue := false, pauseRequested := true, cancelled := true)
  {
    hide Touched, SomeRunning;
    SameWords(s);
  }

  // --- Administrators -----------------------------------------------------------------------

  /** A pause is refused for a cancelled or ended row or a key used to resume; an accepted new one leaves no
      queued task free and pauses the row at once if nothing runs. */
  lemma PauseLeaves(s: State, key: string, latest: TaskKey)
    ensures Pause(s, key, latest).Success? <==>
              if key in s.audited then s.audited[key] else !s.sync.cancelled && s.sync.status !in {Cancelled, Completed, Limited}
    ensures Pause(s, key, latest).Success? && (key in s.audited || s.sync.pauseRequested) ==> Pause(s, key, latest).value == s
    ensures Pause(s, key, latest).Success? && key !in s.audited && !s.sync.pauseRequested ==>
              && var t := Pause(s, key, latest).value;
              && t.tasks.Keys == s.tasks.Keys && Reheld(s, t, NoHold, SyncPaused)
              && (forall k :: k in t.tasks && t.tasks[k].status.Queued? ==> !t.tasks[k].hold.NoHold?)
              && t.sync == s.sync.(pauseRequested := true, status := if Running(s) then Ready else Paused)
              && t.audited == s.audited[key := true]
  {
    hide Touched, SomeRunning, Running;
    SameWords(s);
  }

  /** A resume is refused for a cancelled or ended row, a key used to pause, or one that names another task
      while nothing is queued or running; an accepted new one frees exactly what a pause held, makes the row
      ready, and enqueues one task if none is queued or running. */
  lemma ResumeLeaves(s: State, key: string, latest: TaskKey, sameRequest: bool)
    ensures Resume(s, key, latest, sameRequest).Success? <==>
              if key in s.audited then !s.audited[key]
              else !s.sync.cancelled && s.sync.status !in {Cancelled, Completed, Limited}
                   && (Working(s) || Named(key) !in s.tasks || sameRequest)
    ensures Resume(s, key, latest, sameRequest).Success? && key in s.audited ==> Resume(s, key, latest, sameRequest).value == s
    ensures Resume(s, key, latest, sameRequest).Success? && key !in s.audited ==>
              && var t := Resume(s, key, latest, sameRequest).value;
              && Reheld(s, t, SyncPaused, NoHold)
              && (if Working(s) then t.tasks.Keys == s.tasks.Keys
                  else OnlyNew(s, t, Named(key), s.sync.checkpoint, if s.sync.campaignPaused then CampaignPaused else NoHold))
              && t.sync == s.sync.(pauseRequested := false, status := Ready)
              && t.audited == s.audited[key := false]
  {
    hide Touched, SomeActive, Working;
    SameWords(s);
    HoldsKeepActivity(s.tasks, SyncPaused, NoHold);
  }

  /** A retry is for a failed or partial task; a new one needs a ready, uncancelled, idle row, and goes on
      from where the retried task began. */
  lemma RetryLeaves(s: State, key: string, retried: TaskKey)
    ensures Retry(s, key, retried).Success? <==>
              && retried in s.tasks && s.tasks[retried].status in {TaskStatus.Failed, TaskStatus.Partial}
              && (Named(key) in s.tasks || (s.sync.status.Ready? && !s.sync.cancelled && !Working(s)))
    ensures Retry(s, key, retried).Success? && Named(key) in s.tasks ==> Retry(s, key, retried).value == s
    ensures Retry(s, key, retried).Success? && Named(key) !in s.tasks ==>
              && var t := Retry(s, key, retried).value;
              && OnlyNew(s, t, Named(key), s.tasks[retried].checkpoint, if s.sync.campaignPaused then CampaignPaused else NoHold)
              && (forall k :: k in s.tasks ==> t.tasks[k] == s.tasks[k]) && t.sync == s.sync
  {
    hide SomeActive, Working;
    SameWords(s);
  }

  // --- The queue ----------------------------------------------------------------------------

  /** A task is claimed exactly when it is queued, nothing holds it and its campaign is neither paused nor
      over; it then runs under a token never issued before, and has not yet read the row. */
  lemma ClaimLeaves(s: State, task: TaskKey, leaseUntil: int)
    requires Inv(s)
    ensures Enabled(s, DoClaim(task, leaseUntil)) <==>
              && task in s.tasks && s.tasks[task].status.Queued? && s.tasks[task].hold.NoHold?
              && !s.sync.campaignPaused && !s.sync.campaignOver
    ensures Enabled(s, DoClaim(task, leaseUntil)) ==>
              && var t := Next(s, DoClaim(task, leaseUntil));
              && t.sync == s.sync && t.tasks.Keys == s.tasks.Keys
              && t.tasks[task].status.Running? && t.tasks[task].token.Some? && t.tasks[task].leaseUntil == leaseUntil && !t.tasks[task].begun
              && (forall k :: k in s.tasks && k != task ==> t.tasks[k] == s.tasks[k] && t.tasks[k].token != t.tasks[task].token)
  {
  }

  /** The worker reads the row before it writes: it may commit only if it found the row ready. */
  lemma BeginReadsTheRow(s: State, task: TaskKey, token: nat)
    requires Enabled(s, DoBegin(task, token))
    ensures var t := Next(s, DoBegin(task, token));
            t.sync == s.sync && task in t.tasks && (t.tasks[task].begun <==> s.sync.status.Ready?)
  {
  }

  /** The worker of the task under that token. */
  ghost predicate ByWorker(a: Action, task: TaskKey, token: nat) {
    match a
    case DoHeartbeat(k, n, _) => k == task && n == token
    case DoRelease(k, n, _, _) => k == task && n == token
    case DoBegin(k, n) => k == task && n == token
    case DoCommit(k, n, _, _) => k == task && n == token
    case _ => false
  }

  /** Nobody takes a running task from its worker while the lease lives: neither pause nor cancellation, nor
      the queue. */
  lemma RunningTaskIsTheWorkers(s: State, a: Action, task: TaskKey, token: nat)
    requires LeaseLive(s, task, token) && !ByWorker(a, task, token) && !a.DoTick?
    ensures task in Next(s, a).tasks && Next(s, a).tasks[task] == s.tasks[task]
  {
    hide Touched, SomeActive, SomeRunning;
  }

  /** A task that leaves its worker, or is held, freed or withdrawn, is written as said and as the last one;
      every other task and the row stay. */
  lemma QueueLeaves(s: State, a: Action)
    requires Enabled(s, a) && (a.DoRelease? || a.DoRecover? || a.DoHold? || a.DoFree? || a.DoWithdraw? || a.DoClaim? || a.DoHeartbeat?)
    ensures var t := Next(s, a);
            && a.task in s.tasks && a.task in t.tasks && t.tasks == s.tasks[a.task := t.tasks[a.task]]
            && t.sync == s.sync && t.lastUpdated == a.task
            && var before, after := s.tasks[a.task], t.tasks[a.task];
            && (a.DoRelease? ==> after == before.(status := a.outcome, token := None, hold := a.hold, begun := false))
            && (a.DoRecover? ==> before.leaseUntil <= s.now && after == before.(status := a.outcome, token := None, begun := false))
            && (a.DoHold? ==> before.hold.NoHold? && !after.hold.NoHold? && after == before.(hold := after.hold))
            && (a.DoFree? ==> !before.hold.NoHold? && after == before.(hold := NoHold))
            && (a.DoWithdraw? ==> before.status.Queued? && after == before.(status := TaskStatus.Withdrawn))
            && (a.DoHeartbeat? ==> after == before.(leaseUntil := a.leaseUntil))
  {
  }

  /** A new task is the last one written. */
  lemma NewTaskIsLast(s: State, a: Action, k: TaskKey)
    requires k !in s.tasks && k in Next(s, a).tasks
    ensures Next(s, a).lastUpdated == k && Next(s, a).tasks.Keys == s.tasks.Keys + {k}
    ensures a.DoCoordinate? || a.DoContinue? || a.DoRetry? || a.DoResume? || a.DoCampaignResume?
  {
    hide Touched, SomeActive, SomeRunning, LeaseLive, WithHold, WithdrawQueued;
    KeysKept(s.tasks, NoHold, CampaignPaused);
    KeysKept(s.tasks, NoHold, SyncPaused);
    KeysKept(s.tasks, SyncPaused, NoHold);
    KeysKept(s.tasks, CampaignPaused, NoHold);
    if OfTheQueue(a) {
      QueueStepEnqueuesNothing(s, a);
    }
  }
}
