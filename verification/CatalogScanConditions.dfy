/**
 What a step of the scan does, said of the stored rows alone: which steps are refused, that a pause is
 honoured, and what a decision leaves.
 */
module CatalogScanConditions {
  import opened Wrappers
  import opened CatalogScan
  import opened CatalogScanProofs

  /** The task runs under a lease that has not lapsed, and it is its turn: it made the last step, or the
      run is where it was enqueued. */
  ghost predicate OnTurn(s: State, task: TaskKey, token: nat) {
    && task in s.tasks && s.tasks[task].status.Running? && s.tasks[task].token == Some(token) && s.now < s.tasks[task].leaseUntil
    && (s.run.active == Some(task) || s.run.sequence == s.tasks[task].sequence)
  }

  ghost predicate Closed(status: Status) {
    status in {Paused, Blocked, Completed, CompletedWithReview, Cancelled}
  }

  /** The run is being paused, or is paused, blocked or over. */
  ghost predicate Stopped(s: State) {
    s.run.pauseRequested || Closed(s.run.status)
  }

  /** A task is refused exactly when it is not its turn, for its lease or for its place. */
  lemma RefusedIff(s: State, task: TaskKey, token: nat, next: Option<Event>, g: Grouping, attempt: Attempt)
    requires next.Some? ==> next.value in s.live
    ensures Step(s, task, token, next, g, attempt).Success? <==> OnTurn(s, task, token)
    ensures Step(s, task, token, next, g, attempt) == Failure(LeaseLost) <==>
              !(task in s.tasks && s.tasks[task].status.Running? && s.tasks[task].token == Some(token) && s.now < s.tasks[task].leaseUntil)
  {
    hide Judged, Decided;
  }

  // --- Pauses -------------------------------------------------------------------------------

  /** A step of a run that is being paused decides nothing: the task whose turn it is sets it paused, and
      any other changes nothing. A run that is paused, blocked or over is left as it is. */
  lemma StepHonoursPause(s: State, a: Action)
    requires a.DoStep? && Stopped(s)
    ensures Next(s, a) == if !Closed(s.run.status) && Enabled(s, a) && OnTurn(s, a.task, a.token)
                          then s.(run := s.run.(status := Paused)) else s
  {
    hide Judged, Decided, IsNext, Answers;
  }

  /** Everything a scan has decided and how far it has come. */
  ghost predicate SameProgress(s: State, t: State) {
    && t.decisions == s.decisions && t.unified == s.unified && t.steppers == s.steppers
    && t.run.cursor == s.run.cursor && t.run.sequence == s.run.sequence && t.run.active == s.run.active
    && t.run.scanned == s.run.scanned && t.run.merged == s.run.merged && t.run.review == s.run.review
    && t.run.unmatched == s.run.unmatched && t.run.foreign == s.run.foreign
  }

  ghost predicate Resumes(a: Action) {
    a.DoControl? && a.control.Resume?
  }

  lemma StopLasts(s: State, a: Action)
    requires Stopped(s) && !Resumes(a)
    ensures Stopped(Next(s, a)) && SameProgress(s, Next(s, a))
    ensures !a.DoWorld? ==> Next(s, a).live == s.live && Next(s, a).retired == s.retired
  {
    hide IsNext, Answers, WorldMayBecome, SomeActive, SomeRunning, Judged, Decided, WithdrawQueued, HoldQueued, ReleaseQueued;
    if a.DoStep? {
      StepHonoursPause(s, a);
    }
  }

  /** Nothing is decided, merged or passed between a pause, a block or the end and the next resume: in
      every continuation without one the scan stays where it was. */
  lemma {:induction false} StoppedScanDecidesNothing(s: State, actions: seq<Action>)
    requires Stopped(s) && forall n :: 0 <= n < |actions| ==> !Resumes(actions[n])
    ensures Stopped(RunFrom(s, actions)) && SameProgress(s, RunFrom(s, actions))
  {
    hide Next, Stopped, Resumes;
    if actions != [] {
      var n := |actions| - 1;
      StoppedScanDecidesNothing(s, actions[..n]);
      StopLasts(RunFrom(s, actions[..n]), actions[n]);
    }
  }

  /** An accepted request to pause stops the run, whatever is running on it. */
  lemma PauseStops(s: State, key: string, capacity: bool)
    requires key !in s.audited && !(s.run.status in {Completed, CompletedWithReview, Cancelled})
    ensures ControlScan(s, key, Pause, capacity).Success?
    ensures var t := Next(s, DoControl(key, Pause, capacity));
            Stopped(t) && SameProgress(s, t) && t.live == s.live && t.retired == s.retired
  {
    hide HoldQueued, SomeRunning;
  }

  // --- Decisions ----------------------------------------------------------------------------

  /** Which verdict an event gets. */
  ghost predicate VerdictIs(v: Verdict, info: Info, g: Grouping, attempt: Attempt) {
    match v
    case Foreign => info.foreign
    case Merged => !info.foreign && !g.ambiguous && |g.ids| > 1 && attempt.Unified?
    case Waits => !info.foreign && !g.ambiguous && |g.ids| > 1 && (attempt.InUse? || attempt.Stale?)
    case InReview =>
      && !info.foreign
      && (g.ambiguous || (|g.ids| > 1 && attempt.Refused?) || (|g.ids| <= 1 && (g.weak != {} || !info.located)))
    case Unmatched => !info.foreign && !g.ambiguous && |g.ids| <= 1 && g.weak == {} && info.located
  }

  /** A step of a run that goes on, by the task whose turn it is, decides the next event, or ends the run. */
  lemma WorkingStepDecides(s: State, a: Action)
    requires a.DoStep? && Enabled(s, a) && OnTurn(s, a.task, a.token) && !Stopped(s)
    ensures var t := Next(s, a);
            && t.run.active == Some(a.task) && t.tasks == s.tasks && t.audited == s.audited && t.run.snapshotAt == s.run.snapshotAt
            && (a.next.None? ==>
                  && t == s.(run := s.run.(active := Some(a.task), status := t.run.status))
                  && t.run.status == if s.run.review == 0 then Completed else CompletedWithReview)
            && (a.next.Some? ==>
                  && a.next.value in t.decisions && t.decisions == s.decisions[a.next.value := t.decisions[a.next.value]]
                  && t.steppers == s.steppers + [a.task] && t.run.sequence == s.run.sequence + 1)
  {
    hide Judged, IsNext, Answers;
  }

  /** The verdict is the one whose condition holds; only a settled one moves the cursor, to the event, and
      counts; a waiting one is due again in thirty seconds; and only a merge takes events away. */
  lemma DecisionLeaves(s: State, a: Action)
    requires a.DoStep? && Enabled(s, a) && OnTurn(s, a.task, a.token) && !Stopped(s) && a.next.Some?
    ensures var e, t := a.next.value, Next(s, a);
            && e in t.decisions
            && var v := t.decisions[e].verdict;
            && VerdictIs(v, s.live[e], a.g, a.attempt)
            && t.run.cursor == (if v.Waits? then s.run.cursor else Some(e))
            && t.run.status == (if v.Waits? then Waiting else Ready)
            && t.run.nextAttemptAt == (if v.Waits? then s.now + 30 * 1000 else s.now)
            && t.run.scanned == (if v.Waits? then s.run.scanned else s.run.scanned + 1)
            && t.run.review == (if v.InReview? then s.run.review + 1 else s.run.review)
            && t.run.unmatched == (if v.Unmatched? then s.run.unmatched + 1 else s.run.unmatched)
            && t.run.foreign == (if v.Foreign? then s.run.foreign + 1 else s.run.foreign)
            && (!v.Merged? ==> t.live == s.live && t.retired == s.retired && t.run.merged == s.run.merged)
            && (v.Merged? ==>
                  && a.attempt.Unified? && t.decisions[e].target == Some(a.attempt.target) && t.decisions[e].members == a.g.ids
                  && t.run.merged + 1 == s.run.merged + |a.g.ids|
                  && t.retired == s.retired + (a.g.ids - {a.attempt.target})
                  && t.live.Keys == s.live.Keys - (a.g.ids - {a.attempt.target})
                  && t.live[a.attempt.target] == a.attempt.info
                  && forall x :: x in t.live && x != a.attempt.target ==> t.live[x] == s.live[x])
  {
    hide IsNext;
  }

  // --- Controls -----------------------------------------------------------------------------

  /** What a control does to a task that was there: a cancel withdraws it if queued, a pause holds it if
      queued and free, a resume frees it if queued and held by a pause; otherwise it stays as it was. */
  ghost predicate TaskControlled(control: Control, before: Task, after: Task) {
    match control
    case Cancel => after == if before.status.Queued? then before.(status := TaskStatus.Withdrawn) else before
    case Pause => after == if before.status.Queued? && !before.held then before.(held := true, pauseHold := true) else before
    case Resume => after == if before.status.Queued? && before.pauseHold then before.(held := false, pauseHold := false) else before
  }

  ghost predicate Working(s: State) {
    exists k :: k in s.tasks && (s.tasks[k].status.Queued? || s.tasks[k].status.Running?)
  }

  /** An accepted new request controls every task as said, enqueues one only to resume a run with none
      queued or running, due at once from where the run stands, and sets the run's standing. */
  lemma ControlLeaves(s: State, key: string, control: Control, capacity: bool)
    requires key !in s.audited && ControlScan(s, key, control, capacity).Success?
    ensures var t := ControlScan(s, key, control, capacity).value;
            && (forall k :: k in s.tasks ==> k in t.tasks && TaskControlled(control, s.tasks[k], t.tasks[k]))
            && (if control.Resume? && !Working(s) then t.tasks.Keys == s.tasks.Keys + {Resumption(key)} else t.tasks.Keys == s.tasks.Keys)
            && (forall k :: k in t.tasks && k !in s.tasks ==>
                  t.tasks[k].status.Queued? && !t.tasks[k].held && t.tasks[k].sequence == s.run.sequence)
            && t.run.pauseRequested == control.Pause? && t.run.nextAttemptAt == s.now
            && (control.Cancel? ==> t.run.status.Cancelled? && !Working(t))
            && (control.Resume? ==> t.run.status.Ready?)
            && (control.Pause? ==> t.run.status in {Ready, Paused})
  {
    hide SomeRunning;
    ReleaseKeepsWork(s.tasks);
    if k :| k in s.tasks && (s.tasks[k].status.Queued? || s.tasks[k].status.Running?) {
      assert Active(s.tasks[k]);
    }
    if control.Cancel? {
      NothingRuns(s, key, capacity);
    }
  }

  lemma NothingRuns(s: State, key: string, capacity: bool)
    requires key !in s.audited && ControlScan(s, key, Cancel, capacity).Success?
    ensures forall k :: k in s.tasks ==> !s.tasks[k].status.Running?
  {
  }

  lemma ReleaseKeepsWork(tasks: map<TaskKey, Task>)
    ensures SomeActive(ReleaseQueued(tasks)) <==> exists k :: k in tasks && (tasks[k].status.Queued? || tasks[k].status.Running?)
  {
    var released := ReleaseQueued(tasks);
    if k :| k in tasks && (tasks[k].status.Queued? || tasks[k].status.Running?) {
      assert Active(released[k]);
    }
    if k :| k in released && Active(released[k]) {
      assert tasks[k].status.Queued? || tasks[k].status.Running?;
    }
  }

  /** Nobody takes a running task from its worker while the lease lives. */
  lemma RunningTaskIsTheWorkers(s: State, a: Action, task: TaskKey, token: nat)
    requires LeaseLive(s, task, token) && !a.DoTick?
    requires a.DoHeartbeat? || a.DoFinish? ==> a.task != task || a.token != token
    ensures task in Next(s, a).tasks && Next(s, a).tasks[task] == s.tasks[task]
  {
    hide Next, Judged, Decided, IsNext, Answers, WorldMayBecome;
    if a.DoStep? {
      StepKeepsTasks(s, a);
    } else {
      OthersKeepRunning(s, a, task, token);
    }
  }

  lemma StepKeepsTasks(s: State, a: Action)
    requires a.DoStep?
    ensures Next(s, a).tasks == s.tasks
  {
    hide Judged, IsNext, Answers;
  }

  lemma OthersKeepRunning(s: State, a: Action, task: TaskKey, token: nat)
    requires LeaseLive(s, task, token) && !a.DoTick? && !a.DoStep?
    requires a.DoHeartbeat? || a.DoFinish? ==> a.task != task || a.token != token
    ensures task in Next(s, a).tasks && Next(s, a).tasks[task] == s.tasks[task]
  {
    hide WorldMayBecome, Arrivals, SomeActive, SomeRunning, ControlScan, Coordinate;
    if a.DoControl? {
      ControlKeepsRunning(s, a, task);
    } else if a.DoCoordinate? {
      CoordinatorKeepsTask(s, a.capacity, task);
    }
  }

  lemma ControlKeepsRunning(s: State, a: Action, task: TaskKey)
    requires a.DoControl? && task in s.tasks && s.tasks[task].status.Running?
    ensures task in Next(s, a).tasks && Next(s, a).tasks[task] == s.tasks[task]
  {
    hide SomeActive, SomeRunning;
  }

  lemma CoordinatorKeepsTask(s: State, capacity: bool, task: TaskKey)
    requires task in s.tasks
    ensures task in Coordinate(s, capacity).tasks && Coordinate(s, capacity).tasks[task] == s.tasks[task]
  {
    hide SomeActive;
  }
}
