/**
 The resumable reconciliation scan: a cursor over the events of a snapshot, in creation order, that
 shrinks under the scan's own merges and changes under everyone else's. Tasks take turns on it.
 */
module CatalogScan {
  import opened Wrappers

  /** An event with the instant it was created, which never changes; ids are numbered in text order. */
  datatype Event = Event(createdAt: int, id: nat)

  predicate Before(a: Event, b: Event) {
    a.createdAt < b.createdAt || (a.createdAt == b.createdAt && a.id < b.id)
  }

  /** `recognised`: some source of it takes part in scans. `located`: country, date, city and state are known. */
  datatype Info = Info(recognised: bool, foreign: bool, located: bool)

  datatype Verdict = Merged | InReview | Unmatched | Foreign | Waits

  datatype Decision = Decision(verdict: Verdict, members: set<Event>, target: Option<Event>)

  /** What the group search and the group's reconciliation came to. */
  datatype Grouping = Grouping(ids: set<Event>, ambiguous: bool, weak: set<Event>)

  datatype Attempt = Unified(target: Event, info: Info) | InUse | Stale | Refused

  datatype Status = Ready | Waiting | Paused | Blocked | Completed | CompletedWithReview | Cancelled

  datatype Run =
    Run(status: Status, snapshotAt: int, cursor: Option<Event>, sequence: nat, active: Option<TaskKey>, pauseRequested: bool,
        nextAttemptAt: int, scanned: nat, merged: nat, review: nat, unmatched: nat, foreign: nat)

  /** Tasks are enqueued once per key, so the key names the task. */
  datatype TaskKey = Root | Continuation(sequence: nat) | Resumption(key: string)

  datatype TaskStatus = Queued | Running | Done | Failed | Partial | Withdrawn

  datatype Task = Task(status: TaskStatus, token: Option<nat>, leaseUntil: int, held: bool, pauseHold: bool, sequence: nat)

  datatype Control = Pause | Resume | Cancel

  datatype Error = LeaseLost | CheckpointStale | AlreadyOver | InUseByTask | CapacityDeferred | KeyConflict

  /** `steppers`, `late` and `unified` only record history: which task made each step, which events
      became recognised behind the cursor, and which events this run merged away. */
  datatype State =
    State(now: int, live: map<Event, Info>, retired: set<Event>, run: Run, tasks: map<TaskKey, Task>, lastUpdated: TaskKey,
          issued: nat, decisions: map<Event, Decision>, audited: map<string, Control>,
          steppers: seq<TaskKey>, late: set<Event>, unified: set<Event>)

  predicate Over(status: Status) {
    status.Completed? || status.CompletedWithReview? || status.Cancelled?
  }

  predicate Active(t: Task) {
    t.status.Queued? || t.status.Running?
  }

  predicate SomeActive(tasks: map<TaskKey, Task>) {
    exists k :: k in tasks && Active(tasks[k])
  }

  predicate SomeRunning(tasks: map<TaskKey, Task>) {
    exists k :: k in tasks && tasks[k].status.Running?
  }

  function Start(now: int, live: map<Event, Info>, retired: set<Event>, snapshotAt: int): State {
    State(now, live, retired, Run(Ready, snapshotAt, None, 0, None, false, now, 0, 0, 0, 0, 0),
          map[Root := Task(Queued, None, 0, false, false, 0)], Root, 0, map[], map[], [], {}, {})
  }

  // --- One step -----------------------------------------------------------------------------

  predicate Passed(cursor: Option<Event>, e: Event) {
    cursor.Some? && !Before(cursor.value, e)
  }

  predicate Eligible(s: State, e: Event) {
    e in s.live && e.createdAt <= s.run.snapshotAt && s.live[e].recognised && !Passed(s.run.cursor, e)
  }

  ghost predicate IsNext(s: State, next: Option<Event>) {
    match next
    case None => forall e :: !Eligible(s, e)
    case Some(e) => Eligible(s, e) && forall f :: Eligible(s, f) ==> f == e || Before(e, f)
  }

  predicate LeaseLive(s: State, task: TaskKey, token: nat) {
    task in s.tasks && s.tasks[task].status.Running? && s.tasks[task].token == Some(token) && s.now < s.tasks[task].leaseUntil
  }

  function Judged(info: Info, g: Grouping, attempt: Attempt): Decision {
    if info.foreign then Decision(Foreign, {}, None)
    else if g.ambiguous then Decision(InReview, g.ids, None)
    else if |g.ids| > 1 then
      match attempt
      case Unified(target, _) => Decision(Merged, g.ids, Some(target))
      case InUse => Decision(Waits, g.ids, None)
      case Stale => Decision(Waits, g.ids, None)
      case Refused => Decision(InReview, g.ids, None)
    else if g.weak != {} then Decision(InReview, g.weak, None)
    else if !info.located then Decision(InReview, {}, None)
    else Decision(Unmatched, {}, None)
  }

  function One(b: bool): nat {
    if b then 1 else 0
  }

  function Advanced(run: Run, e: Event, d: Decision, task: TaskKey, now: int): Run {
    if d.verdict.Waits? then
      run.(active := Some(task), sequence := run.sequence + 1, status := Waiting, nextAttemptAt := now + 30000)
    else
      run.(active := Some(task), sequence := run.sequence + 1, status := Ready, nextAttemptAt := now, cursor := Some(e),
           scanned := run.scanned + 1,
           merged := run.merged + (if d.verdict.Merged? && |d.members| > 0 then |d.members| - 1 else 0),
           review := run.review + One(d.verdict.InReview?), unmatched := run.unmatched + One(d.verdict.Unmatched?),
           foreign := run.foreign + One(d.verdict.Foreign?))
  }

  function Decided(s: State, task: TaskKey, e: Event, d: Decision, attempt: Attempt): State {
    var decided := s.(decisions := s.decisions[e := d], run := Advanced(s.run, e, d, task, s.now), steppers := s.steppers + [task]);
    if d.verdict.Merged? && attempt.Unified? then
      var gone := d.members - {attempt.target};
      decided.(live := (s.live - gone)[attempt.target := attempt.info], retired := s.retired + gone, unified := s.unified + gone)
    else decided
  }

  function Step(s: State, task: TaskKey, token: nat, next: Option<Event>, g: Grouping, attempt: Attempt): Result<State, Error>
    requires next.Some? ==> next.value in s.live
  {
    if !LeaseLive(s, task, token) then Failure(LeaseLost)
    else if s.run.active != Some(task) && s.run.sequence != s.tasks[task].sequence then Failure(CheckpointStale)
    else if Over(s.run.status) || s.run.status.Paused? || s.run.status.Blocked? then Success(s)
    else if s.run.pauseRequested then Success(s.(run := s.run.(status := Paused)))
    else
      match next
      case None =>
        Success(s.(run := s.run.(status := if s.run.review > 0 then CompletedWithReview else Completed, active := Some(task))))
      case Some(e) =>
        Success(Decided(s, task, e, Judged(s.live[e], g, attempt), attempt))
  }

  /** What the group search and the reconciliation guarantee of their answers. */
  ghost predicate Answers(s: State, e: Event, g: Grouping, attempt: Attempt) {
    && e in g.ids && (forall x :: x in g.ids ==> x in s.live)
    && (attempt.Unified? ==> attempt.target in g.ids && attempt.info.recognised
                             && forall x :: x in g.ids ==> x == attempt.target || Before(attempt.target, x))
  }

  // --- Coordinator and controls -------------------------------------------------------------

  function Enqueue(s: State, key: TaskKey): State {
    if key in s.tasks then s
    else s.(tasks := s.tasks[key := Task(Queued, None, 0, false, false, s.run.sequence)], lastUpdated := key)
  }

  function Coordinate(s: State, capacity: bool): State {
    if !capacity || !(s.run.status.Ready? || s.run.status.Waiting?) || s.run.nextAttemptAt > s.now || SomeActive(s.tasks) then s
    else if s.run.pauseRequested then s.(run := s.run.(status := Paused))
    else if s.lastUpdated !in s.tasks || s.tasks[s.lastUpdated].held || !s.tasks[s.lastUpdated].status.Done? then
      s.(run := s.run.(status := Blocked))
    else Enqueue(s, Continuation(s.run.sequence))
  }

  function WithdrawQueued(tasks: map<TaskKey, Task>): map<TaskKey, Task> {
    map k | k in tasks :: if tasks[k].status.Queued? then tasks[k].(status := Withdrawn) else tasks[k]
  }

  function HoldQueued(tasks: map<TaskKey, Task>): map<TaskKey, Task> {
    map k | k in tasks :: if tasks[k].status.Queued? && !tasks[k].held then tasks[k].(held := true, pauseHold := true) else tasks[k]
  }

  function ReleaseQueued(tasks: map<TaskKey, Task>): map<TaskKey, Task> {
    map k | k in tasks :: if tasks[k].status.Queued? && tasks[k].pauseHold then tasks[k].(held := false, pauseHold := false) else tasks[k]
  }

  function Controlled(s: State, key: string, control: Control): State {
    var after := s.(run := s.run.(pauseRequested := control.Pause?, nextAttemptAt := s.now,
                                  status := if control.Cancel? then Cancelled
                                            else if control.Pause? && !SomeRunning(s.tasks) then Paused else Ready),
                    audited := s.audited[key := control]);
    match control
    case Cancel => after.(tasks := WithdrawQueued(s.tasks))
    case Pause => after.(tasks := HoldQueued(s.tasks))
    case Resume =>
      var released := after.(tasks := ReleaseQueued(s.tasks));
      if SomeActive(released.tasks) then released else Enqueue(released, Resumption(key))
  }

  function ControlScan(s: State, key: string, control: Control, capacity: bool): Result<State, Error> {
    if control.Resume? && key !in s.audited && !capacity then Failure(CapacityDeferred)
    else if key in s.audited then (if s.audited[key] == control then Success(s) else Failure(KeyConflict))
    else if Over(s.run.status) then Failure(AlreadyOver)
    else if control.Cancel? && SomeRunning(s.tasks) then Failure(InUseByTask)
    else Success(Controlled(s, key, control))
  }

  // --- Runs ---------------------------------------------------------------------------------

  datatype Action =
    | DoTick(now: int)
    | DoWorld(live: map<Event, Info>, retired: set<Event>)
    | DoClaim(task: TaskKey, leaseUntil: int)
    | DoHeartbeat(task: TaskKey, token: nat, leaseUntil: int)
    | DoFinish(task: TaskKey, token: nat, outcome: TaskStatus)
    | DoRecover(task: TaskKey, outcome: TaskStatus)
    | DoStep(task: TaskKey, token: nat, next: Option<Event>, g: Grouping, attempt: Attempt)
    | DoCoordinate(capacity: bool)
    | DoControl(key: string, control: Control, capacity: bool)

  /** Merged ids stay retired, and events leave the catalogue only by being merged. */
  ghost predicate WorldMayBecome(s: State, live: map<Event, Info>, retired: set<Event>) {
    s.retired <= retired && live.Keys !! retired && s.live.Keys <= live.Keys + retired
  }

  /** Events behind the cursor that only now are recognised members of the snapshot. */
  function Arrivals(s: State, live: map<Event, Info>): set<Event> {
    set e | e in live && e.createdAt <= s.run.snapshotAt && live[e].recognised && Passed(s.run.cursor, e)
            && !(e in s.live && s.live[e].recognised)
  }

  ghost predicate Enabled(s: State, a: Action) {
    match a
    case DoTick(now) => s.now <= now
    case DoWorld(live, retired) => WorldMayBecome(s, live, retired)
    case DoClaim(task, _) => task in s.tasks && s.tasks[task].status.Queued? && !s.tasks[task].held
    case DoHeartbeat(task, token, _) => LeaseLive(s, task, token)
    case DoFinish(task, token, outcome) => LeaseLive(s, task, token) && !outcome.Running?
    case DoRecover(task, outcome) =>
      task in s.tasks && s.tasks[task].status.Running? && s.tasks[task].leaseUntil <= s.now && !outcome.Running?
    case DoStep(_, _, next, g, attempt) => IsNext(s, next) && (next.Some? ==> Answers(s, next.value, g, attempt))
    case DoCoordinate(_) => true
    case DoControl(_, _, _) => true
  }

  /** One transaction, or nothing when it is refused. */
  ghost function Next(s: State, a: Action): State {
    if !Enabled(s, a) then s
    else
      match a
      case DoTick(now) => s.(now := now)
      case DoWorld(live, retired) => s.(live := live, retired := retired, late := s.late + Arrivals(s, live))
      case DoClaim(task, leaseUntil) =>
        s.(tasks := s.tasks[task := s.tasks[task].(status := Running, token := Some(s.issued), leaseUntil := leaseUntil)],
           issued := s.issued + 1, lastUpdated := task)
      case DoHeartbeat(task, _, leaseUntil) =>
        s.(tasks := s.tasks[task := s.tasks[task].(leaseUntil := leaseUntil)], lastUpdated := task)
      case DoFinish(task, _, outcome) =>
        s.(tasks := s.tasks[task := s.tasks[task].(status := outcome, token := None)], lastUpdated := task)
      case DoRecover(task, outcome) =>
        s.(tasks := s.tasks[task := s.tasks[task].(status := outcome, token := None)], lastUpdated := task)
      case DoStep(task, token, next, g, attempt) => Value(s, Step(s, task, token, next, g, attempt))
      case DoCoordinate(capacity) => Coordinate(s, capacity)
      case DoControl(key, control, capacity) => Value(s, ControlScan(s, key, control, capacity))
  }

  function Value(s: State, r: Result<State, Error>): State {
    if r.Success? then r.value else s
  }

  ghost function RunFrom(s: State, actions: seq<Action>): State {
    if actions == [] then s else Next(RunFrom(s, actions[..|actions| - 1]), actions[|actions| - 1])
  }

  // --- Invariants ---------------------------------------------------------------------------

  function Having(decisions: map<Event, Decision>, v: Verdict): set<Event> {
    set e | e in decisions && decisions[e].verdict == v
  }

  function Settled(decisions: map<Event, Decision>): set<Event> {
    set e | e in decisions && !decisions[e].verdict.Waits?
  }

  ghost predicate CountsInv(s: State) {
    && s.run.scanned == |Settled(s.decisions)|
    && s.run.review == |Having(s.decisions, InReview)|
    && s.run.unmatched == |Having(s.decisions, Unmatched)|
    && s.run.foreign == |Having(s.decisions, Foreign)|
    && s.run.merged == |s.unified|
  }

  /** The event was decided, is what decided events were merged into, or arrived behind the cursor. */
  ghost predicate Accounted(s: State, e: Event) {
    || (e in s.decisions && !s.decisions[e].verdict.Waits?)
    || (exists d :: d in s.decisions && s.decisions[d].verdict.Merged? && s.decisions[d].target == Some(e))
    || e in s.late
  }

  ghost predicate CursorInv(s: State) {
    && s.live.Keys !! s.retired && s.unified <= s.retired
    && (forall e :: e in s.decisions && !s.decisions[e].verdict.Waits? ==> Passed(s.run.cursor, e))
    && (forall e :: e in s.live && s.live[e].recognised && e.createdAt <= s.run.snapshotAt && Passed(s.run.cursor, e) ==> Accounted(s, e))
  }

  ghost predicate TasksInv(s: State) {
    && (forall a, b :: a in s.tasks && b in s.tasks && Active(s.tasks[a]) && Active(s.tasks[b]) ==> a == b)
    && (forall k :: k in s.tasks ==> s.tasks[k].sequence <= s.run.sequence)
  }

  /** A task's steps are consecutive and begin at the sequence it was enqueued with. */
  ghost predicate TurnsInv(s: State) {
    && |s.steppers| == s.run.sequence
    && (forall i :: 0 <= i < |s.steppers| ==> s.steppers[i] in s.tasks && s.tasks[s.steppers[i]].sequence <= i)
    && (s.run.active.Some? ==>
          || (s.steppers != [] && s.run.active.value == s.steppers[|s.steppers| - 1])
          || (s.run.active.value in s.tasks && s.tasks[s.run.active.value].sequence == s.run.sequence && Over(s.run.status)))
    && (forall i, j, k :: 0 <= i < j < k < |s.steppers| && s.steppers[i] == s.steppers[k] ==> s.steppers[j] == s.steppers[i])
  }

  ghost predicate Inv(s: State) {
    CountsInv(s) && CursorInv(s) && TasksInv(s) && TurnsInv(s)
  }
}
