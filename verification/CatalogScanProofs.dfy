/** What every run of the reconciliation scan keeps, and what a finished one has covered. */
module CatalogScanProofs {
  import opened Wrappers
  import opened CatalogScan

  // --- Counting decisions -------------------------------------------------------------------

  lemma HavingDecided(decisions: map<Event, Decision>, e: Event, d: Decision, v: Verdict)
    requires e in decisions ==> decisions[e].verdict.Waits?
    requires !v.Waits?
    ensures |Having(decisions[e := d], v)| == |Having(decisions, v)| + One(d.verdict == v)
  {
    var before, after := Having(decisions, v), Having(decisions[e := d], v);
    if d.verdict == v {
      assert after == before + {e};
    } else {
      assert after == before;
    }
  }

  lemma SettledDecided(decisions: map<Event, Decision>, e: Event, d: Decision)
    requires e in decisions ==> decisions[e].verdict.Waits?
    ensures |Settled(decisions[e := d])| == |Settled(decisions)| + One(!d.verdict.Waits?)
  {
    var before, after := Settled(decisions), Settled(decisions[e := d]);
    if d.verdict.Waits? {
      assert after == before;
    } else {
      assert after == before + {e};
    }
  }

  ghost predicate Taken(s: State, e: Event, g: Grouping, attempt: Attempt) {
    Eligible(s, e) && Answers(s, e, g, attempt)
  }

  lemma DecidedKeepsCounts(s: State, task: TaskKey, e: Event, g: Grouping, attempt: Attempt)
    requires CountsInv(s) && CursorInv(s) && Taken(s, e, g, attempt)
    ensures CountsInv(Decided(s, task, e, Judged(s.live[e], g, attempt), attempt))
  {
    hide Having, Settled, Accounted, CursorInv, Judged;
    var d := Judged(s.live[e], g, attempt);
    NotSettledYet(s, e, g, attempt);
    SettledDecided(s.decisions, e, d);
    HavingDecided(s.decisions, e, d, InReview);
    HavingDecided(s.decisions, e, d, Unmatched);
    HavingDecided(s.decisions, e, d, Foreign);
  }

  lemma NotSettledYet(s: State, e: Event, g: Grouping, attempt: Attempt)
    requires CursorInv(s) && Taken(s, e, g, attempt)
    ensures e in s.decisions ==> s.decisions[e].verdict.Waits?
    ensures var d := Judged(s.live[e], g, attempt);
            d.verdict.Merged? ==>
              && attempt.Unified? && d.members == g.ids
              && |s.unified + (d.members - {attempt.target})| == |s.unified| + |d.members| - 1
  {
    hide Accounted;
    var d := Judged(s.live[e], g, attempt);
    if d.verdict.Merged? {
      var gone := d.members - {attempt.target};
      assert d.members == gone + {attempt.target};
      assert s.unified !! gone;
    }
  }

  lemma DecidedKeepsCursor(s: State, task: TaskKey, e: Event, g: Grouping, attempt: Attempt)
    requires CursorInv(s) && Taken(s, e, g, attempt)
    requires forall f :: Eligible(s, f) ==> f == e || Before(e, f)
    ensures CursorInv(Decided(s, task, e, Judged(s.live[e], g, attempt), attempt))
  {
    hide Having, Settled, Accounted;
    var d := Judged(s.live[e], g, attempt);
    var t := Decided(s, task, e, d, attempt);
    forall x | x in t.live && t.live[x].recognised && x.createdAt <= t.run.snapshotAt && Passed(t.run.cursor, x)
      ensures Accounted(t, x)
    {
      if x == e && !d.verdict.Waits? {
        DecidedAccounts(t, e);
      } else if d.verdict.Merged? && x == attempt.target {
        TargetAccounted(t, e, x);
      } else {
        assert x in s.live && s.live[x].recognised;
        assert Passed(s.run.cursor, x);
        StillAccounted(s, t, x);
      }
    }
  }

  lemma DecidedAccounts(t: State, e: Event)
    requires e in t.decisions && !t.decisions[e].verdict.Waits?
    ensures Accounted(t, e)
  {
  }

  lemma TargetAccounted(t: State, e: Event, x: Event)
    requires e in t.decisions && t.decisions[e].verdict.Merged? && t.decisions[e].target == Some(x)
    ensures Accounted(t, x)
  {
  }

  lemma StillAccounted(s: State, t: State, x: Event)
    requires Accounted(s, x) && s.late <= t.late
    requires forall d :: d in s.decisions && !s.decisions[d].verdict.Waits? ==> d in t.decisions && t.decisions[d] == s.decisions[d]
    ensures Accounted(t, x)
  {
    if d :| d in s.decisions && s.decisions[d].verdict.Merged? && s.decisions[d].target == Some(x) {
      assert t.decisions[d].target == Some(x);
    }
  }

  // --- One action at a time -----------------------------------------------------------------

  /** Only a scan step decides, counts, takes a turn or moves the cursor; only the world changes events. */
  lemma QuietAction(s: State, a: Action)
    requires !a.DoStep?
    ensures var t := Next(s, a);
            && t == s.(now := t.now, live := t.live, retired := t.retired, late := t.late, tasks := t.tasks,
                       lastUpdated := t.lastUpdated, issued := t.issued, audited := t.audited,
                       run := s.run.(status := t.run.status, pauseRequested := t.run.pauseRequested, nextAttemptAt := t.run.nextAttemptAt))
            && (Over(s.run.status) ==> t.run.status == s.run.status)
            && (!a.DoWorld? ==> t.live == s.live && t.retired == s.retired && t.late == s.late)
  {
    hide SomeActive, SomeRunning, LeaseLive, WorldMayBecome, HoldQueued, ReleaseQueued, WithdrawQueued, Arrivals;
  }

  lemma TasksNeverForgotten(s: State, a: Action)
    ensures forall k :: k in s.tasks ==> k in Next(s, a).tasks && Next(s, a).tasks[k].sequence == s.tasks[k].sequence
  {
    hide Next, Decided, Judged, Answers, IsNext;
    if a.DoStep? {
      ScanStepView(s, a);
      if a.next.Some? && Enabled(s, a) {
        DecidedTasks(s, a.task, a.next.value, Judged(s.live[a.next.value], a.g, a.attempt), a.attempt);
      }
    } else {
      QuietTasks(s, a);
    }
  }

  lemma QuietTasks(s: State, a: Action)
    requires !a.DoStep?
    ensures forall k :: k in s.tasks ==> k in Next(s, a).tasks && Next(s, a).tasks[k].sequence == s.tasks[k].sequence
  {
    hide SomeActive, SomeRunning, WorldMayBecome, Arrivals;
  }

  lemma StepKeepsCounts(s: State, a: Action)
    requires Inv(s)
    ensures CountsInv(Next(s, a))
  {
    hide CursorInv, TasksInv, TurnsInv, Having, Settled, Decided, Next;
    if a.DoStep? {
      ScanStepView(s, a);
      if a.next.Some? && Enabled(s, a) {
        DecidedKeepsCounts(s, a.task, a.next.value, a.g, a.attempt);
      }
    } else {
      QuietAction(s, a);
    }
  }

  /** A scan step changes nothing, only the run's standing, or takes and decides the next event. */
  lemma ScanStepView(s: State, a: Action)
    requires a.DoStep?
    ensures Enabled(s, a) && a.next.Some? ==> Taken(s, a.next.value, a.g, a.attempt)
    ensures var t := Next(s, a);
            || t == s
            || t == s.(run := s.run.(status := t.run.status, active := t.run.active))
            || (Enabled(s, a) && a.next.Some? && t == Decided(s, a.task, a.next.value, Judged(s.live[a.next.value], a.g, a.attempt), a.attempt))
  {
    hide Decided, Judged, Answers, LeaseLive;
  }

  lemma StepKeepsCursor(s: State, a: Action)
    requires Inv(s)
    ensures CursorInv(Next(s, a))
  {
    hide CountsInv, TasksInv, TurnsInv, Having, Settled, Decided, Accounted, Next, CursorInv;
    if a.DoStep? {
      ScanStepView(s, a);
      if a.next.Some? && Enabled(s, a) {
        DecidedKeepsCursor(s, a.task, a.next.value, a.g, a.attempt);
      }
      SameEvents(s, Next(s, a));
    } else if a.DoWorld? {
      WorldKeepsCursor(s, a);
    } else {
      QuietAction(s, a);
      SameEvents(s, Next(s, a));
    }
  }

  lemma SameEvents(s: State, t: State)
    requires CursorInv(s)
    ensures (t.live == s.live && t.retired == s.retired && t.unified == s.unified && t.decisions == s.decisions && t.late == s.late
             && t.run.cursor == s.run.cursor && t.run.snapshotAt == s.run.snapshotAt) ==> CursorInv(t)
  {
    hide Accounted;
    if t.live == s.live && t.decisions == s.decisions && t.late == s.late {
      forall x | Accounted(s, x)
        ensures Accounted(t, x)
      {
        StillAccounted(s, t, x);
      }
    }
  }

  lemma WorldKeepsCursor(s: State, a: Action)
    requires CursorInv(s) && a.DoWorld?
    ensures CursorInv(Next(s, a))
  {
    hide Accounted;
    var t := Next(s, a);
    if Enabled(s, a) {
      forall x | x in t.live && t.live[x].recognised && x.createdAt <= s.run.snapshotAt && Passed(s.run.cursor, x)
        ensures Accounted(t, x)
      {
        if x in s.live && s.live[x].recognised {
          StillAccounted(s, t, x);
        } else {
          LateAccounted(t, x);
        }
      }
    }
  }

  lemma LateAccounted(t: State, x: Event)
    requires x in t.late
    ensures Accounted(t, x)
  {
  }

  lemma EnqueueKeepsTasks(s: State, key: TaskKey)
    requires TasksInv(s) && !SomeActive(s.tasks)
    ensures TasksInv(Enqueue(s, key))
  {
  }

  lemma ControlledKeepsTasks(s: State, key: string, control: Control)
    requires TasksInv(s)
    ensures TasksInv(Controlled(s, key, control))
  {
    hide SomeActive, SomeRunning, Enqueue;
    var after := Controlled(s, key, Pause);
    if control.Resume? {
      var released := s.(run := s.run.(pauseRequested := false, nextAttemptAt := s.now, status := Ready),
                         audited := s.audited[key := control], tasks := ReleaseQueued(s.tasks));
      assert TasksInv(released);
      if !SomeActive(released.tasks) {
        EnqueueKeepsTasks(released, Resumption(key));
      }
    }
  }

  lemma StepKeepsTasks(s: State, a: Action)
    requires Inv(s)
    ensures TasksInv(Next(s, a))
  {
    hide CountsInv, CursorInv, TurnsInv, Next, TasksInv, Decided, SomeActive;
    if !Enabled(s, a) {
      RefusedChangesNothing(s, a);
    } else if a.DoStep? {
      ScanStepView(s, a);
      SequenceGrows(s, Next(s, a));
      if a.next.Some? {
        DecidedTasks(s, a.task, a.next.value, Judged(s.live[a.next.value], a.g, a.attempt), a.attempt);
      }
    } else if a.DoCoordinate? {
      CoordinateKeepsTasks(s, a);
    } else if a.DoControl? {
      ControlKeepsTasks(s, a);
    } else {
      OneTaskChanges(s, a);
    }
  }

  lemma RefusedChangesNothing(s: State, a: Action)
    requires !Enabled(s, a)
    ensures Next(s, a) == s
  {
  }

  lemma SequenceGrows(s: State, t: State)
    requires TasksInv(s)
    ensures t.tasks == s.tasks && t.run.sequence >= s.run.sequence ==> TasksInv(t)
  {
  }

  lemma DecidedTasks(s: State, task: TaskKey, e: Event, d: Decision, attempt: Attempt)
    ensures Decided(s, task, e, d, attempt).tasks == s.tasks
    ensures Decided(s, task, e, d, attempt).run.sequence == s.run.sequence + 1
  {
  }

  lemma CoordinateKeepsTasks(s: State, a: Action)
    requires TasksInv(s) && a.DoCoordinate?
    ensures TasksInv(Next(s, a))
  {
    hide SomeActive, Enqueue;
    if !SomeActive(s.tasks) {
      EnqueueKeepsTasks(s, Continuation(s.run.sequence));
    }
  }

  lemma ControlKeepsTasks(s: State, a: Action)
    requires TasksInv(s) && a.DoControl?
    ensures TasksInv(Next(s, a))
  {
    hide Controlled, SomeRunning;
    ControlledKeepsTasks(s, a.key, a.control);
  }

  /** Claims, heartbeats, results and recoveries activate no further task. */
  lemma OneTaskChanges(s: State, a: Action)
    requires TasksInv(s) && Enabled(s, a)
    requires a.DoTick? || a.DoWorld? || a.DoClaim? || a.DoHeartbeat? || a.DoFinish? || a.DoRecover?
    ensures TasksInv(Next(s, a))
  {
    hide WorldMayBecome, Arrivals;
  }

  /** Turns survive anything that neither steps nor forgets a task. */
  lemma SameTurns(s: State, t: State)
    requires TurnsInv(s) && t.steppers == s.steppers && t.run.sequence == s.run.sequence
    requires forall k :: k in s.tasks ==> k in t.tasks && t.tasks[k].sequence == s.tasks[k].sequence
    requires t.run.active == s.run.active && (Over(s.run.status) ==> Over(t.run.status))
    ensures TurnsInv(t)
  {
  }

  lemma StepKeepsTurns(s: State, a: Action)
    requires Inv(s)
    ensures TurnsInv(Next(s, a))
  {
    hide CountsInv, CursorInv, TasksInv, TurnsInv, Step, Answers, Next;
    if a.DoStep? && Enabled(s, a) {
      assert a.next.Some? ==> a.next.value in s.live;
      assert Next(s, a) == Value(s, Step(s, a.task, a.token, a.next, a.g, a.attempt)) by {
        StepIsNext(s, a);
      }
      TurnKept(s, a.task, a.token, a.next, a.g, a.attempt);
    } else {
      if a.DoStep? {
        RefusedChangesNothing(s, a);
      } else {
        QuietAction(s, a);
      }
      TasksNeverForgotten(s, a);
      SameTurns(s, Next(s, a));
    }
  }

  lemma StepIsNext(s: State, a: Action)
    requires a.DoStep? && Enabled(s, a)
    ensures a.next.Some? ==> a.next.value in s.live
    ensures Next(s, a) == Value(s, Step(s, a.task, a.token, a.next, a.g, a.attempt))
  {
    hide Step, Answers;
  }

  lemma TurnKept(s: State, task: TaskKey, token: nat, next: Option<Event>, g: Grouping, attempt: Attempt)
    requires TurnsInv(s) && TasksInv(s) && (next.Some? ==> next.value in s.live)
    ensures TurnsInv(Value(s, Step(s, task, token, next, g, attempt)))
  {
    hide TasksInv, TurnsInv, Judged;
    var t := Value(s, Step(s, task, token, next, g, attempt));
    if Step(s, task, token, next, g, attempt).Success? {
      if Over(s.run.status) || s.run.status.Paused? || s.run.status.Blocked? || s.run.pauseRequested {
        SameTurns(s, t);
      } else if next.None? {
        FinishKeepsTurns(s, task, t);
      } else {
        DecidedKeepsTurns(s, task, t);
      }
    }
  }

  ghost predicate MayTurn(s: State, task: TaskKey) {
    task in s.tasks && (s.run.active == Some(task) || s.run.sequence == s.tasks[task].sequence)
  }

  lemma FinishKeepsTurns(s: State, task: TaskKey, t: State)
    requires TurnsInv(s) && !Over(s.run.status) && MayTurn(s, task)
    requires t.steppers == s.steppers && t.tasks == s.tasks && t.run.sequence == s.run.sequence
    requires t.run.active == Some(task) && Over(t.run.status)
    ensures TurnsInv(t)
  {
  }

  lemma DecidedKeepsTurns(s: State, task: TaskKey, t: State)
    requires TurnsInv(s) && TasksInv(s) && !Over(s.run.status) && MayTurn(s, task)
    requires t.steppers == s.steppers + [task] && t.tasks == s.tasks && t.run.sequence == s.run.sequence + 1
    requires t.run.active == Some(task)
    ensures TurnsInv(t)
  {
    var n := |s.steppers|;
    forall i, j, k | 0 <= i < j < k < |t.steppers| && t.steppers[i] == t.steppers[k]
      ensures t.steppers[j] == t.steppers[i]
    {
      if k == n {
        assert s.steppers[i] == task && s.tasks[task].sequence <= i;
        assert s.steppers[n - 1] == task;
      }
    }
  }

  lemma NextKeepsInv(s: State, a: Action)
    requires Inv(s)
    ensures Inv(Next(s, a))
  {
    hide Next, CountsInv, CursorInv, TasksInv, TurnsInv;
    StepKeepsCounts(s, a);
    StepKeepsCursor(s, a);
    StepKeepsTasks(s, a);
    StepKeepsTurns(s, a);
  }

  lemma StartInv(now: int, live: map<Event, Info>, retired: set<Event>, snapshotAt: int)
    requires live.Keys !! retired
    ensures Inv(Start(now, live, retired, snapshotAt))
  {
    var s := Start(now, live, retired, snapshotAt);
    assert Settled(s.decisions) == {};
    assert forall v :: Having(s.decisions, v) == {};
  }

  lemma {:induction false} RunKeepsInv(s: State, actions: seq<Action>)
    requires Inv(s)
    ensures Inv(RunFrom(s, actions))
  {
    hide Next, Inv;
    if actions != [] {
      RunKeepsInv(s, actions[..|actions| - 1]);
      NextKeepsInv(RunFrom(s, actions[..|actions| - 1]), actions[|actions| - 1]);
    }
  }
}
