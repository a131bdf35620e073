/**
 One catalogue synchronisation, its discovery tasks and everyone who controls them: the coordinator,
 administrators, campaigns, the weekly schedule, the task queue and the crawler itself.
 */
module CatalogContinuation {
  import opened Wrappers

  /** Persisted work (page, cursor and snapshot), numbered; its hash stands for it. */
  type Checkpoint = nat

  datatype Status = Ready | Paused | Blocked | Limited | Completed | Cancelled

  /** `cancelled` is the mark that campaigns and the weekly schedule leave in the options. The last two
      fields belong to the campaign of the synchronisation, if it has one. */
  datatype Sync =
    Sync(status: Status, checkpoint: Checkpoint, pauseRequested: bool, autoContinue: bool, cancelled: bool,
         campaignPaused: bool, campaignOver: bool)

  /** Tasks are enqueued once per key: the coordinator's names the checkpoint, the others a request. */
  datatype TaskKey = Auto(checkpoint: Checkpoint) | Named(key: string)

  datatype TaskStatus = Queued | Running | Done | Partial | Failed | Withdrawn

  datatype Hold = NoHold | SyncPaused | CampaignPaused | OtherHold

  /** `begun` tells that the worker holding the token found the row ready when it read it. */
  datatype Task = Task(status: TaskStatus, token: Option<nat>, leaseUntil: int, hold: Hold, checkpoint: Checkpoint, begun: bool)

  /** `lastUpdated` is the most recently written task. */
  datatype State =
    State(now: int, sync: Sync, tasks: map<TaskKey, Task>, lastUpdated: TaskKey, issued: nat, audited: map<string, bool>)

  predicate Active(t: Task) {
    t.status.Queued? || t.status.Running?
  }

  predicate SomeActive(tasks: map<TaskKey, Task>) {
    exists k :: k in tasks && Active(tasks[k])
  }

  predicate SomeRunning(tasks: map<TaskKey, Task>) {
    exists k :: k in tasks && tasks[k].status.Running?
  }

  /** A new task is held at once while the campaign is paused. */
  function NewTask(sync: Sync): Task {
    Task(Queued, None, 0, if sync.campaignPaused then CampaignPaused else NoHold, sync.checkpoint, false)
  }

  function Create(now: int, key: string, autoContinue: bool): State {
    var sync := Sync(Ready, 0, false, autoContinue, false, false, false);
    State(now, sync, map[Named(key) := NewTask(sync)], Named(key), 0, map[])
  }

  function Enqueue(s: State, key: TaskKey): State {
    if key in s.tasks then s else s.(tasks := s.tasks[key := NewTask(s.sync)], lastUpdated := key)
  }

  // --- Coordinator --------------------------------------------------------------------------

  function Coordinate(s: State, sourceBlocked: bool): State {
    if !s.sync.status.Ready? then s
    else if s.sync.pauseRequested then
      if SomeRunning(s.tasks) then s else s.(sync := s.sync.(status := Paused))
    else if !s.sync.autoContinue || sourceBlocked || SomeActive(s.tasks) then s
    else if s.lastUpdated !in s.tasks || !s.tasks[s.lastUpdated].hold.NoHold? then s
    else
      var last := s.tasks[s.lastUpdated];
      if !last.status.Done? then s.(sync := s.sync.(status := if last.status.Withdrawn? then Paused else Blocked))
      else if last.checkpoint == s.sync.checkpoint then s.(sync := s.sync.(status := Limited))
      else Enqueue(s, Auto(s.sync.checkpoint))
  }

  // --- Administrators -----------------------------------------------------------------------

  datatype Error = Refused(code: string)

  function Rehold(t: Task, from: Hold, to: Hold): Task {
    if t.status.Queued? && t.hold == from then t.(hold := to) else t
  }

  function WithHold(tasks: map<TaskKey, Task>, from: Hold, to: Hold): map<TaskKey, Task> {
    map k | k in tasks :: Rehold(tasks[k], from, to)
  }

  /** The most recently written task after an update: one it wrote, or the one before. */
  function Touched(s: State, after: map<TaskKey, Task>, latest: TaskKey): TaskKey {
    if latest in s.tasks && latest in after && after[latest] != s.tasks[latest] then latest else s.lastUpdated
  }

  function Pause(s: State, key: string, latest: TaskKey): Result<State, Error> {
    if key in s.audited then (if s.audited[key] then Success(s) else Failure(Refused("idempotency_conflict")))
    else if s.sync.status.Cancelled? || s.sync.cancelled then Failure(Refused("weekly_occurrence_cancelled"))
    else if s.sync.status.Completed? || s.sync.status.Limited? then Failure(Refused("scope_completed_or_limited"))
    else if s.sync.pauseRequested then Success(s)
    else
      var held := WithHold(s.tasks, NoHold, SyncPaused);
      Success(s.(tasks := held, lastUpdated := Touched(s, held, latest), audited := s.audited[key := true],
                 sync := s.sync.(pauseRequested := true, status := if SomeRunning(s.tasks) then Ready else Paused)))
  }

  /** `sameRequest` tells whether a task already enqueued under the key asked for the same. */
  function Resume(s: State, key: string, latest: TaskKey, sameRequest: bool): Result<State, Error> {
    if key in s.audited then (if !s.audited[key] then Success(s) else Failure(Refused("idempotency_conflict")))
    else if s.sync.status.Cancelled? || s.sync.cancelled then Failure(Refused("weekly_occurrence_cancelled"))
    else if s.sync.status.Completed? || s.sync.status.Limited? then Failure(Refused("scope_completed_or_limited"))
    else
      var released := WithHold(s.tasks, SyncPaused, NoHold);
      var after := s.(tasks := released, lastUpdated := Touched(s, released, latest), audited := s.audited[key := false],
                      sync := s.sync.(pauseRequested := false, status := Ready));
      if SomeActive(released) then Success(after)
      else if Named(key) in s.tasks && !sameRequest then Failure(Refused("idempotency_conflict"))
      else Success(Enqueue(after, Named(key)))
  }

  /** A request to continue; a repeated key finds the task it named before. */
  function Continue(s: State, key: string): Result<State, Error> {
    if Named(key) in s.tasks then Success(s)
    else if s.sync.pauseRequested then Failure(Refused("sync_paused"))
    else if !s.sync.status.Ready? then Failure(Refused("scope_completed_or_limited"))
    else if SomeActive(s.tasks) then Failure(Refused("sync_already_queued"))
    else Success(Enqueue(s, Named(key)))
  }

  /** A retry of a failed or partial discovery task. It does not look at the pause request. */
  function Retry(s: State, key: string, old': TaskKey): Result<State, Error> {
    if !(old' in s.tasks && (s.tasks[old'].status.Failed? || s.tasks[old'].status.Partial?)) then
      Failure(Refused("only_failed_or_partial_tasks_can_retry"))
    else if Named(key) in s.tasks then Success(s)
    else if s.sync.status.Cancelled? || s.sync.cancelled then Failure(Refused("weekly_occurrence_cancelled"))
    else if !s.sync.status.Ready? then Failure(Refused("compatible_checkpoint_unavailable"))
    else if SomeActive(s.tasks) then Failure(Refused("sync_already_queued"))
    else Success(s.(tasks := s.tasks[Named(key) := NewTask(s.sync).(checkpoint := s.tasks[old'].checkpoint)], lastUpdated := Named(key)))
  }

  // --- Campaigns and the weekly schedule ----------------------------------------------------

  function WithdrawQueued(tasks: map<TaskKey, Task>): map<TaskKey, Task> {
    map k | k in tasks :: if tasks[k].status.Queued? then tasks[k].(status := Withdrawn) else tasks[k]
  }

  function CampaignPause(s: State, latest: TaskKey): Result<State, Error> {
    if s.sync.campaignOver then Failure(Refused("campaign_finished"))
    else
      var held := WithHold(s.tasks, NoHold, CampaignPaused);
      var paused := s.(tasks := held, lastUpdated := Touched(s, held, latest), sync := s.sync.(campaignPaused := true));
      if s.sync.status.Completed? || s.sync.status.Limited? then Success(paused)
      else Success(paused.(sync := paused.sync.(pauseRequested := true, status := if SomeRunning(s.tasks) then s.sync.status else Paused)))
  }

  /** The campaign's own row is written last, so a task enqueued here still meets its pause. */
  function CampaignResume(s: State, key: string, latest: TaskKey): Result<State, Error> {
    if s.sync.campaignOver then Failure(Refused("campaign_finished"))
    else
      var released := WithHold(s.tasks, CampaignPaused, NoHold);
      var resumed := s.(tasks := released, lastUpdated := Touched(s, released, latest));
      if s.sync.status.Completed? || s.sync.status.Limited? then Success(CampaignResumed(resumed))
      else
        var ready := resumed.(sync := s.sync.(pauseRequested := false, status := Ready));
        Success(CampaignResumed(if SomeActive(released) then ready else Enqueue(ready, Named(key))))
  }

  function CampaignResumed(s: State): State {
    s.(sync := s.sync.(campaignPaused := false))
  }

  function CampaignCancel(s: State, latest: TaskKey): Result<State, Error> {
    if s.sync.campaignOver then Failure(Refused("campaign_finished"))
    else if SomeRunning(s.tasks) then Failure(Refused("campaign_in_use"))
    else
      var withdrawn := WithdrawQueued(s.tasks);
      Success(s.(tasks := withdrawn, lastUpdated := Touched(s, withdrawn, latest),
                 sync := s.sync.(status := Cancelled, pauseRequested := false, cancelled := true, campaignOver := true)))
  }

  function WeeklyCancel(s: State, latest: TaskKey): Result<State, Error> {
    if SomeRunning(s.tasks) then Failure(Refused("weekly_occurrence_in_use"))
    else
      var withdrawn := WithdrawQueued(s.tasks);
      Success(s.(tasks := withdrawn, lastUpdated := Touched(s, withdrawn, latest),
                 sync := s.sync.(status := if s.sync.status.Completed? || s.sync.status.Limited? then s.sync.status else Cancelled,
                                 autoContinue := false, pauseRequested := true, cancelled := true)))
  }

  // --- The queue and the crawler ------------------------------------------------------------

  predicate LeaseLive(s: State, task: TaskKey, token: nat) {
    task in s.tasks && s.tasks[task].status.Running? && s.tasks[task].token == Some(token) && s.now < s.tasks[task].leaseUntil
  }

  function Claim(s: State, task: TaskKey, leaseUntil: int): State
    requires task in s.tasks
  {
    s.(tasks := s.tasks[task := s.tasks[task].(status := Running, token := Some(s.issued), leaseUntil := leaseUntil, begun := false)],
       issued := s.issued + 1, lastUpdated := task)
  }

  /** The queue refuses the tasks of a paused or cancelled campaign. */
  predicate Claimable(s: State, task: TaskKey) {
    task in s.tasks && s.tasks[task].status.Queued? && s.tasks[task].hold.NoHold? && !s.sync.campaignPaused && !s.sync.campaignOver
  }

  /** A task leaves its worker: finished, failed with attempts left, deferred under a hold, or recovered. */
  function Release(s: State, task: TaskKey, outcome: TaskStatus, hold: Hold): State
    requires task in s.tasks
  {
    s.(tasks := s.tasks[task := s.tasks[task].(status := outcome, token := None, hold := hold, begun := false)], lastUpdated := task)
  }

  /** The worker reads the row and works only if it is ready. */
  function Begin(s: State, task: TaskKey): State
    requires task in s.tasks
  {
    s.(tasks := s.tasks[task := s.tasks[task].(begun := s.sync.status.Ready?)])
  }

  /** One committed transaction of the crawl: new work, and possibly the end of its scope. */
  function Commit(s: State, task: TaskKey, checkpoint: Checkpoint, end: Option<Status>): State
    requires task in s.tasks
  {
    if end.None? then s.(sync := s.sync.(checkpoint := checkpoint))
    else s.(sync := s.sync.(checkpoint := checkpoint, status := end.value), tasks := s.tasks[task := s.tasks[task].(begun := false)])
  }

  /** `DoHold` is an administrator or a source block holding a queued task, `DoFree` an administrator, or
      the return of capacity or of a source, releasing one, whatever held it. */
  datatype Action =
    | DoTick(now: int)
    | DoCoordinate(sourceBlocked: bool)
    | DoPause(key: string, latest: TaskKey)
    | DoResume(key: string, latest: TaskKey, sameRequest: bool)
    | DoContinue(key: string)
    | DoRetry(key: string, retried: TaskKey)
    | DoCampaignPause(latest: TaskKey)
    | DoCampaignResume(key: string, latest: TaskKey)
    | DoCampaignCancel(latest: TaskKey)
    | DoWeeklyCancel(latest: TaskKey)
    | DoClaim(task: TaskKey, leaseUntil: int)
    | DoHeartbeat(task: TaskKey, token: nat, leaseUntil: int)
    | DoRelease(task: TaskKey, token: nat, outcome: TaskStatus, hold: Hold)
    | DoRecover(task: TaskKey, outcome: TaskStatus)
    | DoWithdraw(task: TaskKey)
    | DoHold(task: TaskKey)
    | DoFree(task: TaskKey)
    | DoBegin(task: TaskKey, token: nat)
    | DoCommit(task: TaskKey, token: nat, checkpoint: Checkpoint, end: Option<Status>)

  predicate Enabled(s: State, a: Action) {
    match a
    case DoTick(now) => s.now <= now
    case DoClaim(task, _) => Claimable(s, task)
    case DoHeartbeat(task, token, _) => LeaseLive(s, task, token)
    case DoRelease(task, token, outcome, _) => LeaseLive(s, task, token) && !outcome.Running?
    case DoRecover(task, outcome) =>
      task in s.tasks && s.tasks[task].status.Running? && s.tasks[task].leaseUntil <= s.now && (outcome.Queued? || outcome.Failed?)
    case DoWithdraw(task) => task in s.tasks && s.tasks[task].status.Queued?
    case DoHold(task) => task in s.tasks && s.tasks[task].status.Queued? && s.tasks[task].hold.NoHold?
    case DoFree(task) => task in s.tasks && s.tasks[task].status.Queued? && !s.tasks[task].hold.NoHold?
    case DoBegin(task, token) => LeaseLive(s, task, token)
    case DoCommit(task, token, _, end) =>
      LeaseLive(s, task, token) && s.tasks[task].begun && (end.Some? ==> end.value.Completed? || end.value.Limited?)
    case _ => true
  }

  function Value(s: State, r: Result<State, Error>): State {
    if r.Success? then r.value else s
  }

  function Next(s: State, a: Action): State {
    if !Enabled(s, a) then s
    else
      match a
      case DoTick(now) => s.(now := now)
      case DoCoordinate(sourceBlocked) => Coordinate(s, sourceBlocked)
      case DoPause(key, latest) => Value(s, Pause(s, key, latest))
      case DoResume(key, latest, sameRequest) => Value(s, Resume(s, key, latest, sameRequest))
      case DoContinue(key) => Value(s, Continue(s, key))
      case DoRetry(key, retried) => Value(s, Retry(s, key, retried))
      case DoCampaignPause(latest) => Value(s, CampaignPause(s, latest))
      case DoCampaignResume(key, latest) => Value(s, CampaignResume(s, key, latest))
      case DoCampaignCancel(latest) => Value(s, CampaignCancel(s, latest))
      case DoWeeklyCancel(latest) => Value(s, WeeklyCancel(s, latest))
      case DoClaim(task, leaseUntil) => Claim(s, task, leaseUntil)
      case DoHeartbeat(task, _, leaseUntil) =>
        s.(tasks := s.tasks[task := s.tasks[task].(leaseUntil := leaseUntil)], lastUpdated := task)
      case DoRelease(task, _, outcome, hold) => Release(s, task, outcome, hold)
      case DoRecover(task, outcome) => Release(s, task, outcome, s.tasks[task].hold)
      case DoWithdraw(task) => s.(tasks := s.tasks[task := s.tasks[task].(status := Withdrawn)], lastUpdated := task)
      case DoHold(task) => s.(tasks := s.tasks[task := s.tasks[task].(hold := OtherHold)], lastUpdated := task)
      case DoFree(task) => s.(tasks := s.tasks[task := s.tasks[task].(hold := NoHold)], lastUpdated := task)
      case DoBegin(task, _) => Begin(s, task)
      case DoCommit(task, _, checkpoint, end) => Commit(s, task, checkpoint, end)
  }

  function Run(s: State, actions: seq<Action>): State {
    if actions == [] then s else Next(Run(s, actions[..|actions| - 1]), actions[|actions| - 1])
  }

  // --- Invariant ----------------------------------------------------------------------------

  ghost predicate OneActive(tasks: map<TaskKey, Task>) {
    forall a, b :: a in tasks && b in tasks && Active(tasks[a]) && Active(tasks[b]) ==> a == b
  }

  predicate Halted(status: Status) {
    status.Paused? || status.Cancelled?
  }

  /** Nobody who may write the checkpoint is about while the synchronisation is halted. */
  ghost predicate Inv(s: State) {
    && OneActive(s.tasks)
    && (forall k :: k in s.tasks && s.tasks[k].begun ==> s.tasks[k].status.Running? && !Halted(s.sync.status))
    && (forall k :: k in s.tasks && s.tasks[k].token.Some? ==> s.tasks[k].token.value < s.issued)
    && (forall c: Checkpoint :: Auto(c) in s.tasks ==> s.tasks[Auto(c)].checkpoint == c)
  }
}
