/** The scan's transactions as the statements that run on its rows. */
module CatalogScanStore {
  import opened Wrappers
  import opened CatalogScan

  ghost predicate StepsTo(before: State, task: TaskKey, token: nat, next: Option<Event>, g: Grouping, attempt: Attempt,
                          r: Result<Status, Error>, after: State)
  {
    && IsNext(before, next)
    && (if CatalogScan.Step(before, task, token, next, g, attempt).Success?
        then CatalogScan.Step(before, task, token, next, g, attempt) == Success(after) && r == Success(after.run.status)
        else CatalogScan.Step(before, task, token, next, g, attempt).error == (if r.Failure? then r.error else LeaseLost)
             && r.Failure? && after == before)
  }

  class CatalogReconciliations {
    var now: int
    var live: map<Event, Info>
    var retired: set<Event>
    var run: Run
    var tasks: map<TaskKey, Task>
    var lastUpdated: TaskKey
    var issued: nat
    var decisions: map<Event, Decision>
    var audited: map<string, Control>
    ghost var steppers: seq<TaskKey>
    ghost var late: set<Event>
    ghost var unified: set<Event>

    ghost function Tables(): State
      reads this
    {
      State(now, live, retired, run, tasks, lastUpdated, issued, decisions, audited, steppers, late, unified)
    }

    constructor (now: int, live: map<Event, Info>, retired: set<Event>, snapshotAt: int)
      ensures Tables() == Start(now, live, retired, snapshotAt)
    {
      this.now, this.live, this.retired := now, live, retired;
      run := Run(Ready, snapshotAt, None, 0, None, false, now, 0, 0, 0, 0, 0);
      tasks, lastUpdated, issued := map[Root := Task(Queued, None, 0, false, false, 0)], Root, 0;
      decisions, audited, steppers, late, unified := map[], map[], [], {}, {};
    }

    /** The first recognised event of the snapshot after the cursor. */
    method FindNext() returns (next: Option<Event>)
      ensures IsNext(Tables(), next)
    {
      next := None;
      var rest := live.Keys;
      while rest != {}
        invariant rest <= live.Keys
        invariant next.Some? ==> Eligible(Tables(), next.value)
        invariant forall e :: Eligible(Tables(), e) && e !in rest ==> next.Some? && (e == next.value || Before(next.value, e))
        decreases |rest|
      {
        var e :| e in rest;
        rest := rest - {e};
        if e.createdAt <= run.snapshotAt && live[e].recognised && !Passed(run.cursor, e)
           && (next.None? || Before(e, next.value)) {
          next := Some(e);
        }
      }
    }

    /** One transaction of a scan task: decide the next event, notice a pause, or finish the run. */
    method Step(task: TaskKey, token: nat, g: Grouping, attempt: Attempt) returns (r: Result<Status, Error>)
      modifies this
      ensures exists next :: StepsTo(old(Tables()), task, token, next, g, attempt, r, Tables())
    {
      hide IsNext, Judged, Decided, Over;
      var next := FindNext();
      ghost var before := Tables();
      NextIsLive(before, next);
      if !(task in tasks && tasks[task].status.Running? && tasks[task].token == Some(token) && now < tasks[task].leaseUntil) {
        r := Failure(LeaseLost);
      } else if run.active != Some(task) && run.sequence != tasks[task].sequence {
        r := Failure(CheckpointStale);
      } else if Over(run.status) || run.status.Paused? || run.status.Blocked? {
        r := Success(run.status);
      } else {
        Proceed(task, token, next, g, attempt);
        r := Success(run.status);
      }
      assert StepsTo(before, task, token, next, g, attempt, r, Tables());
    }

    /** The step of a task whose turn it is on a run that goes on. */
    method Proceed(task: TaskKey, token: nat, next: Option<Event>, g: Grouping, attempt: Attempt)
      requires LeaseLive(Tables(), task, token) && (next.Some? ==> next.value in live)
      requires run.active == Some(task) || run.sequence == tasks[task].sequence
      requires !Over(run.status) && !run.status.Paused? && !run.status.Blocked?
      modifies this
      ensures CatalogScan.Step(old(Tables()), task, token, next, g, attempt) == Success(Tables())
    {
      hide Judged, Decided, Over;
      if run.pauseRequested {
        run := run.(status := Paused);
      } else if next.None? {
        run := run.(status := if run.review > 0 then CompletedWithReview else Completed, active := Some(task));
      } else {
        Decide(task, next.value, g, attempt);
      }
    }

    /** The verdict on one event. */
    method JudgeEvent(e: Event, g: Grouping, attempt: Attempt) returns (d: Decision)
      requires e in live
      ensures d.verdict.Foreign? <==> live[e].foreign
      ensures d.verdict.Merged? <==> !live[e].foreign && !g.ambiguous && |g.ids| > 1 && attempt.Unified?
      ensures d.verdict.Waits? <==> !live[e].foreign && !g.ambiguous && |g.ids| > 1 && (attempt.InUse? || attempt.Stale?)
      ensures d.verdict.Unmatched? <==> !live[e].foreign && !g.ambiguous && |g.ids| <= 1 && g.weak == {} && live[e].located
      ensures d.target == if d.verdict.Merged? then Some(attempt.target) else None
      ensures d.verdict.Merged? || d.verdict.Waits? ==> d.members == g.ids
      ensures d == Judged(live[e], g, attempt)
    {
      d := Decision(Unmatched, {}, None);
      if live[e].foreign {
        d := d.(verdict := Foreign);
      } else if g.ambiguous {
        d := d.(verdict := InReview, members := g.ids);
      } else if |g.ids| > 1 {
        d := d.(members := g.ids);
        if attempt.Unified? {
          d := d.(verdict := Merged, target := Some(attempt.target));
        } else if attempt.InUse? || attempt.Stale? {
          d := d.(verdict := Waits);
        } else {
          d := d.(verdict := InReview);
        }
      } else if g.weak != {} {
        d := d.(verdict := InReview, members := g.weak);
      } else if !live[e].located {
        d := d.(verdict := InReview);
      }
    }

    /** The run after a decision: only a settled one moves the cursor and the counters. */
    method Advance(task: TaskKey, e: Event, d: Decision)
      modifies this`run
      ensures run.active == Some(task) && run.sequence == old(run).sequence + 1
      ensures d.verdict.Waits? ==> run.cursor == old(run).cursor && run.scanned == old(run).scanned && run.status.Waiting?
      ensures !d.verdict.Waits? ==> run.cursor == Some(e) && run.scanned == old(run).scanned + 1 && run.status.Ready?
      ensures run == Advanced(old(run), e, d, task, now)
    {
      run := run.(active := Some(task), sequence := run.sequence + 1, status := if d.verdict.Waits? then Waiting else Ready,
                  nextAttemptAt := now + (if d.verdict.Waits? then 30000 else 0));
      if !d.verdict.Waits? {
        run := run.(cursor := Some(e), scanned := run.scanned + 1);
        match d.verdict {
          case Merged => run := run.(merged := run.merged + if |d.members| > 0 then |d.members| - 1 else 0);
          case InReview => run := run.(review := run.review + 1);
          case Unmatched => run := run.(unmatched := run.unmatched + 1);
          case Foreign => run := run.(foreign := run.foreign + 1);
        }
      }
    }

    /** The other members leave the catalogue for the target. */
    method MergeAway(members: set<Event>, target: Event, info: Info)
      modifies this`live, this`retired, this`unified
      ensures live == (old(live) - (members - {target}))[target := info]
      ensures retired == old(retired) + (members - {target}) && unified == old(unified) + (members - {target})
    {
      var gone := members - {target};
      live := (live - gone)[target := info];
      retired := retired + gone;
      unified := unified + gone;
    }

    /** Record the decision on one event, carry out its merge and advance the run. */
    method Decide(task: TaskKey, e: Event, g: Grouping, attempt: Attempt)
      requires e in live
      modifies this
      ensures Tables() == Decided(old(Tables()), task, e, Judged(old(live)[e], g, attempt), attempt)
    {
      hide Judged, Advanced;
      var d := JudgeEvent(e, g, attempt);
      if d.verdict.Merged? && attempt.Unified? {
        MergeAway(d.members, attempt.target, attempt.info);
      }
      decisions := decisions[e := d];
      steppers := steppers + [task];
      Advance(task, e, d);
    }

    /** The run is going on and due, nobody works on it, and there is room for more. */
    predicate AwaitsTask(capacity: bool)
      reads this
    {
      capacity && (run.status.Ready? || run.status.Waiting?) && run.nextAttemptAt <= now && !SomeActive(tasks)
    }

    /** The task last written completed and nothing holds it. */
    predicate LastCompleted()
      reads this
    {
      lastUpdated in tasks && tasks[lastUpdated].status.Done? && !tasks[lastUpdated].held
    }

    /** The coordinator's visit to the run: it enqueues the task of the current sequence after a completed
        one, or closes the run as paused or blocked, and touches neither decisions nor events. */
    method Coordinate(capacity: bool) returns (queued: bool)
      modifies this
      ensures queued <==>
                old(AwaitsTask(capacity)) && !old(run).pauseRequested && old(LastCompleted()) && Continuation(run.sequence) !in old(tasks)
      ensures tasks == if queued then old(tasks)[Continuation(run.sequence) := Task(Queued, None, 0, false, false, run.sequence)] else old(tasks)
      ensures run == old(run).(status := run.status)
      ensures run.status != old(run).status <==> old(AwaitsTask(capacity)) && (old(run).pauseRequested || !old(LastCompleted()))
      ensures run.status != old(run).status ==> run.status == if run.pauseRequested then Paused else Blocked
      ensures live == old(live) && retired == old(retired) && decisions == old(decisions) && audited == old(audited)
      ensures Tables() == CatalogScan.Coordinate(old(Tables()), capacity)
    {
      if !capacity {
        return false;
      }
      if !(run.status.Ready? || run.status.Waiting?) || run.nextAttemptAt > now || SomeActive(tasks) {
        return false;
      }
      if run.pauseRequested {
        run := run.(status := Paused);
        return false;
      }
      if lastUpdated !in tasks || tasks[lastUpdated].held || !tasks[lastUpdated].status.Done? {
        run := run.(status := Blocked);
        return false;
      }
      queued := EnqueueTask(Continuation(run.sequence));
    }

    /** Enqueue once per key: a repeated key finds the task it named before. */
    method EnqueueTask(key: TaskKey) returns (created: bool)
      modifies this`tasks, this`lastUpdated
      ensures Tables() == Enqueue(old(Tables()), key)
      ensures created <==> key !in old(tasks)
      ensures created ==> SomeActive(tasks)
    {
      created := key !in tasks;
      if created {
        tasks := tasks[key := Task(Queued, None, 0, false, false, run.sequence)];
        lastUpdated := key;
        assert Active(tasks[key]);
      }
    }

    /** Pause, resume or cancel on an administrator's request; a repeated key changes nothing more. */
    method ControlRun(key: string, control: Control, capacity: bool) returns (r: Result<(), Error>)
      modifies this
      ensures r.Failure? <==>
                || (key in old(audited) && old(audited)[key] != control)
                || (key !in old(audited) && ((control.Resume? && !capacity) || Over(old(run).status)
                                             || (control.Cancel? && SomeRunning(old(tasks)))))
      ensures r.Failure? || key in old(audited) ==> Tables() == old(Tables())
      ensures run == old(run).(status := run.status, pauseRequested := run.pauseRequested, nextAttemptAt := run.nextAttemptAt)
      ensures live == old(live) && retired == old(retired) && decisions == old(decisions)
      ensures r.Success? && key !in old(audited) ==> audited == old(audited)[key := control] && run.pauseRequested == control.Pause?
      ensures r.Success? && key !in old(audited) && control.Cancel? ==> run.status.Cancelled? && !SomeActive(tasks)
      ensures r.Success? && key !in old(audited) && control.Pause? ==>
                && run.status == (if SomeRunning(old(tasks)) then Ready else Paused)
                && forall k :: k in tasks ==> !(tasks[k].status.Queued? && !tasks[k].held)
      ensures r.Success? && key !in old(audited) && control.Resume? ==>
                && run.status.Ready? && (SomeActive(tasks) || Resumption(key) in old(tasks))
                && forall k :: k in tasks ==> !(tasks[k].status.Queued? && tasks[k].pauseHold)
      ensures Tables() == Value(old(Tables()), ControlScan(old(Tables()), key, control, capacity))
      ensures r.Success? <==> ControlScan(old(Tables()), key, control, capacity).Success?
      ensures r.Failure? ==> r.error == ControlScan(old(Tables()), key, control, capacity).error
    {
      if control.Resume? && key !in audited && !capacity {
        return Failure(CapacityDeferred);
      }
      if key in audited {
        return if audited[key] == control then Success(()) else Failure(KeyConflict);
      }
      if Over(run.status) {
        return Failure(AlreadyOver);
      }
      var running := SomeRunning(tasks);
      if control.Cancel? && running {
        return Failure(InUseByTask);
      }
      audited := audited[key := control];
      run := run.(pauseRequested := control.Pause?, nextAttemptAt := now,
                  status := if control.Cancel? then Cancelled else if control.Pause? && !running then Paused else Ready);
      match control {
        case Cancel => tasks := WithdrawQueued(tasks);
        case Pause => tasks := HoldQueued(tasks);
        case Resume =>
          tasks := ReleaseQueued(tasks);
          if !SomeActive(tasks) {
            var _ := EnqueueTask(Resumption(key));
          }
      }
      r := Success(());
    }
  }

  lemma NextIsLive(s: State, next: Option<Event>)
    requires IsNext(s, next)
    ensures next.Some? ==> next.value in s.live
  {
  }
}
