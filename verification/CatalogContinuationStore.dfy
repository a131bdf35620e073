/** The transactions on one synchronisation's row and task rows, statement by statement. */
module CatalogContinuationStore {
  import opened Wrappers
  import opened CatalogContinuation
  import opened CatalogContinuationProofs

  datatype Control = ToPause | ToResume

  /** A method agrees with a transaction: same outcome and same rows, or a refusal that writes nothing. */
  ghost predicate Implements(before: State, spec: Result<State, Error>, r: Result<(), Error>, after: State) {
    if spec.Success? then r.Success? && after == spec.value else r == Failure(spec.error) && after == before
  }

  class CatalogSync {
    var now: int
    var sync: Sync
    var tasks: map<TaskKey, Task>
    var lastUpdated: TaskKey
    var issued: nat
    var audited: map<string, bool>

    function Rows(): State
      reads this
    {
      State(now, sync, tasks, lastUpdated, issued, audited)
    }

    constructor (now: int, key: string, autoContinue: bool)
      ensures Rows() == Create(now, key, autoContinue)
    {
      this.now, issued, audited := now, 0, map[];
      sync := Sync(Ready, 0, false, autoContinue, false, false, false);
      tasks, lastUpdated := map[Named(key) := NewTask(Sync(Ready, 0, false, autoContinue, false, false, false))], Named(key);
    }

    method EnqueueTask(key: TaskKey) returns (created: bool)
      modifies this`tasks, this`lastUpdated
      ensures Rows() == Enqueue(old(Rows()), key) && (created <==> key !in old(tasks))
    {
      created := key !in tasks;
      if created {
        tasks, lastUpdated := tasks[key := NewTask(sync)], key;
      }
    }

    /** Change the hold of every queued task that bears `from`; `latest` is the last one written. */
    method UpdateHolds(from: Hold, to: Hold) returns (latest: TaskKey)
      requires from != to
      modifies this`tasks, this`lastUpdated
      ensures tasks == WithHold(old(tasks), from, to)
      ensures lastUpdated == Touched(old(Rows()), tasks, latest)
    {
      hide WithHold;
      var before := tasks;
      var rest := tasks.Keys;
      latest := lastUpdated;
      while rest != {}
        invariant rest <= before.Keys && tasks.Keys == before.Keys
        invariant forall k :: k in before ==> tasks[k] == if k in rest then before[k] else Rehold(before[k], from, to)
        invariant latest == lastUpdated
        invariant lastUpdated != old(lastUpdated) ==> lastUpdated in before && tasks[lastUpdated] != before[lastUpdated]
        decreases |rest|
      {
        var k :| k in rest;
        rest := rest - {k};
        if tasks[k].status.Queued? && tasks[k].hold == from {
          tasks, lastUpdated := tasks[k := tasks[k].(hold := to)], k;
          latest := k;
        }
      }
      HoldsGiven(before, tasks, from, to);
    }

    /** Withdraw every queued task. */
    method Withdraw() returns (latest: TaskKey)
      modifies this`tasks, this`lastUpdated
      ensures tasks == WithdrawQueued(old(tasks))
      ensures lastUpdated == Touched(old(Rows()), tasks, latest)
    {
      var before := tasks;
      var rest := tasks.Keys;
      latest := lastUpdated;
      while rest != {}
        invariant rest <= before.Keys && tasks.Keys == before.Keys
        invariant forall k :: k in before ==> tasks[k] == if k in rest then before[k] else WithdrawQueued(before)[k]
        invariant latest == lastUpdated
        invariant lastUpdated != old(lastUpdated) ==> lastUpdated in before && tasks[lastUpdated] != before[lastUpdated]
        decreases |rest|
      {
        var k :| k in rest;
        rest := rest - {k};
        if tasks[k].status.Queued? {
          tasks, lastUpdated := tasks[k := tasks[k].(status := Withdrawn)], k;
          latest := k;
        }
      }
      assert tasks == WithdrawQueued(before);
    }

    /** The row goes on by itself, nobody works on it, and nothing holds the task last written. */
    predicate MayGoOn(sourceBlocked: bool)
      reads this
    {
      && sync.status.Ready? && !sync.pauseRequested && sync.autoContinue && !sourceBlocked && !SomeActive(tasks)
      && lastUpdated in tasks && tasks[lastUpdated].hold.NoHold?
    }

    /** The coordinator's visit: after a completed task it continues a checkpoint that moved, stops one that
        did not, honours a pause, and otherwise leaves the row alone. */
    method CoordinateSync(sourceBlocked: bool) returns (queued: bool)
      modifies this
      ensures queued <==> old(MayGoOn(sourceBlocked)) && old(tasks)[old(lastUpdated)].status.Done?
                          && old(tasks)[old(lastUpdated)].checkpoint != sync.checkpoint && Auto(sync.checkpoint) !in old(tasks)
      ensures tasks == if queued then old(tasks)[Auto(sync.checkpoint) := NewTask(sync)] else old(tasks)
      ensures sync == old(sync).(status := sync.status) && audited == old(audited) && issued == old(issued)
      ensures sync.status != old(sync).status ==> old(sync).status.Ready?
      ensures old(sync).status.Ready? ==>
                && (sync.status.Paused? <==>
                      || (sync.pauseRequested && !SomeRunning(old(tasks)))
                      || (old(MayGoOn(sourceBlocked)) && old(tasks)[old(lastUpdated)].status.Withdrawn?))
                && (sync.status.Limited? <==> old(MayGoOn(sourceBlocked)) && old(tasks)[old(lastUpdated)].status.Done?
                                              && old(tasks)[old(lastUpdated)].checkpoint == sync.checkpoint)
                && (sync.status.Blocked? <==> old(MayGoOn(sourceBlocked)) && old(tasks)[old(lastUpdated)].status in {Partial, Failed})
                && !sync.status.Completed? && !sync.status.Cancelled?
      ensures Rows() == Coordinate(old(Rows()), sourceBlocked)
    {
      queued := false;
      if !sync.status.Ready? {
        return;
      }
      if sync.pauseRequested {
        if !SomeRunning(tasks) {
          sync := sync.(status := Paused);
        }
        return;
      }
      if !sync.autoContinue {
        return;
      }
      if sourceBlocked {
        return;
      }
      if SomeActive(tasks) {
        return;
      }
      if lastUpdated !in tasks || !tasks[lastUpdated].hold.NoHold? {
        return;
      }
      var last := tasks[lastUpdated];
      if !last.status.Done? {
        sync := sync.(status := if last.status.Withdrawn? then Paused else Blocked);
        return;
      }
      if last.checkpoint == sync.checkpoint {
        sync := sync.(status := Limited);
        return;
      }
      queued := EnqueueTask(Auto(sync.checkpoint));
    }

    /** Pause or resume on an administrator's request. */
    method ControlSync(control: Control, key: string, sameRequest: bool) returns (r: Result<(), Error>, latest: TaskKey)
      modifies this
      ensures Implements(old(Rows()), if control.ToPause? then Pause(old(Rows()), key, latest)
                                      else Resume(old(Rows()), key, latest, sameRequest), r, Rows())
    {
      hide Touched, WithHold, SomeActive, SomeRunning;
      latest := lastUpdated;
      if key in audited {
        return if audited[key] == control.ToPause? then Success(()) else Failure(Refused("idempotency_conflict")), latest;
      }
      if sync.status.Cancelled? || sync.cancelled {
        return Failure(Refused("weekly_occurrence_cancelled")), latest;
      }
      if sync.status.Completed? || sync.status.Limited? {
        return Failure(Refused("scope_completed_or_limited")), latest;
      }
      if control.ToPause? {
        if sync.pauseRequested {
          return Success(()), latest;
        }
        var running := SomeRunning(tasks);
        latest := UpdateHolds(NoHold, SyncPaused);
        sync := sync.(pauseRequested := true, status := if running then Ready else Paused);
        audited := audited[key := true];
      } else {
        if Named(key) in tasks && !sameRequest && !SomeActive(tasks) {
          HoldsKeepActivity(tasks, SyncPaused, NoHold);
          return Failure(Refused("idempotency_conflict")), latest;
        }
        HoldsKeepActivity(tasks, SyncPaused, NoHold);
        latest := UpdateHolds(SyncPaused, NoHold);
        sync := sync.(pauseRequested := false, status := Ready);
        audited := audited[key := false];
        if !SomeActive(tasks) {
          var _ := EnqueueTask(Named(key));
        }
      }
      r := Success(());
    }

    /** An administrator's request to continue: one new task for the current checkpoint, or the one the same
        key named before, never a second active one. */
    method ContinueSync(key: string) returns (r: Result<(), Error>)
      modifies this
      ensures r.Failure? <==>
                Named(key) !in old(tasks) && (old(sync).pauseRequested || !old(sync).status.Ready? || SomeActive(old(tasks)))
      ensures sync == old(sync) && audited == old(audited) && issued == old(issued)
      ensures r.Failure? || Named(key) in old(tasks) ==> Rows() == old(Rows())
      ensures r.Success? && Named(key) !in old(tasks) ==>
                tasks == old(tasks)[Named(key) := NewTask(sync)] && lastUpdated == Named(key)
      ensures Implements(old(Rows()), Continue(old(Rows()), key), r, Rows())
    {
      hide SomeActive;
      if Named(key) in tasks {
        return Success(());
      }
      if sync.pauseRequested {
        return Failure(Refused("sync_paused"));
      }
      if !sync.status.Ready? {
        return Failure(Refused("scope_completed_or_limited"));
      }
      if SomeActive(tasks) {
        return Failure(Refused("sync_already_queued"));
      }
      var _ := EnqueueTask(Named(key));
      r := Success(());
    }

    /** Cancelling the weekly occurrence the synchronisation belongs to. */
    method CancelWeekly() returns (r: Result<(), Error>, latest: TaskKey)
      modifies this
      ensures Implements(old(Rows()), WeeklyCancel(old(Rows()), latest), r, Rows())
    {
      hide Touched, WithdrawQueued, SomeRunning;
      latest := lastUpdated;
      if SomeRunning(tasks) {
        return Failure(Refused("weekly_occurrence_in_use")), latest;
      }
      latest := Withdraw();
      if !sync.status.Completed? && !sync.status.Limited? {
        sync := sync.(status := Cancelled);
      }
      sync := sync.(autoContinue := false, pauseRequested := true, cancelled := true);
      r := Success(());
    }

    /** The campaign's control of one of its synchronisations. */
    method ControlCampaign(control: Option<Control>, key: string) returns (r: Result<(), Error>, latest: TaskKey)
      modifies this
      ensures Implements(old(Rows()),
                         if control.None? then CampaignCancel(old(Rows()), latest)
                         else if control.value.ToPause? then CampaignPause(old(Rows()), latest)
                         else CampaignResume(old(Rows()), key, latest), r, Rows())
    {
      hide Touched, WithHold, WithdrawQueued, SomeActive, SomeRunning;
      latest := lastUpdated;
      if sync.campaignOver {
        return Failure(Refused("campaign_finished")), latest;
      }
      var running := SomeRunning(tasks);
      if control.None? {
        if running {
          return Failure(Refused("campaign_in_use")), latest;
        }
        latest := Withdraw();
        sync := sync.(status := Cancelled, pauseRequested := false, cancelled := true, campaignOver := true);
        return Success(()), latest;
      }
      if control.value.ToPause? {
        latest := UpdateHolds(NoHold, CampaignPaused);
        sync := sync.(campaignPaused := true);
      } else {
        latest := UpdateHolds(CampaignPaused, NoHold);
      }
      r := Success(());
      if control.value.ToPause? {
        if !sync.status.Completed? && !sync.status.Limited? {
          sync := sync.(pauseRequested := true, status := if running then sync.status else Paused);
        }
        return;
      }
      if !sync.status.Completed? && !sync.status.Limited? {
        sync := sync.(pauseRequested := false, status := Ready);
        if !SomeActive(tasks) {
          var _ := EnqueueTask(Named(key));
        }
      }
      sync := sync.(campaignPaused := false);
    }
  }

  lemma HoldsGiven(before: map<TaskKey, Task>, after: map<TaskKey, Task>, from: Hold, to: Hold)
    requires after.Keys == before.Keys && forall k :: k in before ==> after[k] == Rehold(before[k], from, to)
    ensures after == WithHold(before, from, to)
  {
    hide Rehold;
  }
}
