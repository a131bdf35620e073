/** What the reconciliation scan promises over every run. */
module CatalogScanTheorems {
  import opened Wrappers
  import opened CatalogScan
  import opened CatalogScanProofs

  ghost function Scan(now: int, live: map<Event, Info>, retired: set<Event>, snapshotAt: int, actions: seq<Action>): State {
    RunFrom(Start(now, live, retired, snapshotAt), actions)
  }

  ghost predicate Completes(s: State, a: Action) {
    !Over(s.run.status) && (Next(s, a).run.status.Completed? || Next(s, a).run.status.CompletedWithReview?)
  }

  lemma CompletionSeesNothingNext(s: State, a: Action)
    requires Completes(s, a)
    ensures a.DoStep? && Enabled(s, a) && a.next.None? && forall e :: !Eligible(s, e)
    ensures Next(s, a).live == s.live && Next(s, a).decisions == s.decisions && Next(s, a).late == s.late
            && Next(s, a).retired == s.retired && Next(s, a).run.snapshotAt == s.run.snapshotAt
    ensures Next(s, a).run.status.CompletedWithReview? <==> s.run.review > 0
    ensures Next(s, a).run.review == s.run.review
  {
    hide SomeActive, SomeRunning, LeaseLive, WorldMayBecome, Arrivals, HoldQueued, ReleaseQueued, WithdrawQueued, Judged;
  }

  lemma EventsStayOrRetire(s: State, a: Action)
    requires Inv(s)
    ensures s.live.Keys + s.retired <= Next(s, a).live.Keys + Next(s, a).retired
  {
    hide Inv, Next, CountsInv, CursorInv, TasksInv, TurnsInv;
    if a.DoStep? {
      ScanStepView(s, a);
    } else if a.DoWorld? {
      WorldOnlyRetires(s, a);
    } else {
      QuietAction(s, a);
    }
  }

  lemma WorldOnlyRetires(s: State, a: Action)
    requires a.DoWorld?
    ensures s.live.Keys + s.retired <= Next(s, a).live.Keys + Next(s, a).retired
  {
  }

  lemma {:induction false} StartedEventsStayOrRetire(s: State, actions: seq<Action>)
    requires Inv(s)
    ensures s.live.Keys <= RunFrom(s, actions).live.Keys + RunFrom(s, actions).retired
  {
    hide Next, Inv;
    if actions != [] {
      var n := |actions| - 1;
      StartedEventsStayOrRetire(s, actions[..n]);
      RunKeepsInv(s, actions[..n]);
      EventsStayOrRetire(RunFrom(s, actions[..n]), actions[n]);
    }
  }

  /** The action that completes a run leaves no recognised event of the snapshot unaccounted for:
      each was decided, or holds what decided events were merged into, or became recognised behind
      the cursor. Events the run started with are there or merged away, and the final status tells
      whether any decision awaits review. */
  lemma CompletedScanCoversSnapshot(now: int, live: map<Event, Info>, retired: set<Event>, snapshotAt: int, actions: seq<Action>, last: Action)
    requires live.Keys !! retired
    requires Completes(Scan(now, live, retired, snapshotAt, actions), last)
    ensures var s := Next(Scan(now, live, retired, snapshotAt, actions), last);
            && (forall e :: e in s.live && s.live[e].recognised && e.createdAt <= s.run.snapshotAt ==> Accounted(s, e))
            && (forall e :: e in live ==> e in s.live || e in s.retired)
            && (s.run.status.CompletedWithReview? <==> Having(s.decisions, InReview) != {})
  {
    hide Next, RunFrom, CountsInv, TasksInv, TurnsInv, Completes, Accounted, Having;
    StartInv(now, live, retired, snapshotAt);
    RunKeepsInv(Start(now, live, retired, snapshotAt), actions);
    StartedEventsStayOrRetire(Start(now, live, retired, snapshotAt), actions);
    var before := Scan(now, live, retired, snapshotAt, actions);
    CompletionSeesNothingNext(before, last);
    var s := Next(before, last);
    forall e | e in s.live && s.live[e].recognised && e.createdAt <= s.run.snapshotAt
      ensures Accounted(s, e)
    {
      assert !Eligible(before, e);
      StillAccounted(before, s, e);
    }
    ReviewsCounted(before);
  }

  lemma ReviewsCounted(s: State)
    requires CountsInv(s)
    ensures s.run.review > 0 <==> Having(s.decisions, InReview) != {}
  {
  }

  // --- Who is decided -----------------------------------------------------------------------

  /** A live, recognised event of the snapshot. */
  ghost predicate Candidate(s: State, e: Event) {
    e in s.live && s.live[e].recognised && e.createdAt <= s.run.snapshotAt
  }

  ghost predicate IsSettled(s: State, e: Event) {
    e in s.decisions && !s.decisions[e].verdict.Waits?
  }

  /** Whatever step passes a candidate settles it. */
  lemma PassingSettles(s: State, a: Action, e: Event)
    requires Candidate(s, e) && !Passed(s.run.cursor, e) && Passed(Next(s, a).run.cursor, e)
    ensures IsSettled(Next(s, a), e)
  {
    hide Next, Decided, Judged;
    if a.DoStep? {
      ScanStepView(s, a);
      if a.next.Some? && Enabled(s, a) {
        DecidedCursor(s, a);
        DecidesOnlyNext(s, a);
      }
    } else {
      QuietAction(s, a);
    }
  }

  /** And nothing else settles an event, or takes a settled decision or the cursor back. */
  lemma SettlingPasses(s: State, a: Action, e: Event)
    requires Inv(s)
    ensures IsSettled(s, e) ==> IsSettled(Next(s, a), e)
    ensures Passed(s.run.cursor, e) ==> Passed(Next(s, a).run.cursor, e)
    ensures !IsSettled(s, e) && IsSettled(Next(s, a), e) ==>
              Candidate(s, e) && !Passed(s.run.cursor, e) && Passed(Next(s, a).run.cursor, e)
    ensures Next(s, a).run.snapshotAt == s.run.snapshotAt
  {
    hide Next, Decided, Judged, CountsInv, TasksInv, TurnsInv;
    if a.DoStep? {
      ScanStepView(s, a);
      if a.next.Some? && Enabled(s, a) {
        DecidedCursor(s, a);
        DecidesOnlyNext(s, a);
      }
    } else {
      QuietAction(s, a);
    }
  }

  lemma DecidesOnlyNext(s: State, a: Action)
    requires a.DoStep? && a.next.Some? && Enabled(s, a)
    ensures var e := a.next.value;
            var d := Judged(s.live[e], a.g, a.attempt);
            Decided(s, a.task, e, d, a.attempt).decisions == s.decisions[e := d]
    ensures var e := a.next.value;
            var d := Judged(s.live[e], a.g, a.attempt);
            Decided(s, a.task, e, d, a.attempt).run.cursor == if d.verdict.Waits? then s.run.cursor else Some(e)
  {
    hide Judged, Answers;
  }

  lemma RetiredStay(s: State, a: Action)
    ensures s.retired <= Next(s, a).retired
  {
    hide Next, Judged;
    if a.DoStep? {
      ScanStepView(s, a);
    } else if a.DoWorld? {
      WorldKeepsRetired(s, a);
    } else {
      QuietAction(s, a);
    }
  }

  lemma WorldKeepsRetired(s: State, a: Action)
    requires a.DoWorld?
    ensures s.retired <= Next(s, a).retired
  {
  }

  /** The event is recognised in every state of the run in which it is live. */
  ghost predicate KeptRecognised(s: State, actions: seq<Action>, e: Event) {
    forall n :: 0 <= n <= |actions| && e in RunFrom(s, actions[..n]).live ==> RunFrom(s, actions[..n]).live[e].recognised
  }

  /** A recognised event ahead of the cursor that stays recognised is decided or merged away before the
      cursor leaves it behind: whatever the world does, it ends retired, still ahead, or settled. */
  lemma {:induction false} RecognisedIsNeverSkipped(s: State, actions: seq<Action>, e: Event)
    requires Inv(s) && Candidate(s, e) && !Passed(s.run.cursor, e) && KeptRecognised(s, actions, e)
    ensures var t := RunFrom(s, actions);
            && t.run.snapshotAt == s.run.snapshotAt
            && (e in t.retired || (Candidate(t, e) && (!Passed(t.run.cursor, e) || IsSettled(t, e))))
  {
    hide Next, Inv;
    if actions != [] {
      var n := |actions| - 1;
      var before := RunFrom(s, actions[..n]);
      assert KeptRecognised(s, actions[..n], e) by {
        assert forall m :: 0 <= m <= n ==> actions[..n][..m] == actions[..m];
      }
      RecognisedIsNeverSkipped(s, actions[..n], e);
      RunKeepsInv(s, actions[..n]);
      SettlingPasses(before, actions[n], e);
      RetiredStay(before, actions[n]);
      EventsStayOrRetire(before, actions[n]);
      assert actions[..|actions|] == actions;
      if !Passed(before.run.cursor, e) && Candidate(before, e) && Passed(Next(before, actions[n]).run.cursor, e) {
        PassingSettles(before, actions[n], e);
      }
    }
  }

  /** Action `n` of the run moves the cursor over the event. The cursor never moves back, so there is
      at most one such action. */
  ghost predicate PassedAt(s: State, actions: seq<Action>, n: nat, e: Event) {
    && n < |actions|
    && !Passed(RunFrom(s, actions[..n]).run.cursor, e)
    && Passed(RunFrom(s, actions[..n + 1]).run.cursor, e)
  }

  lemma {:induction false} SettledWhenPassed(s: State, actions: seq<Action>, e: Event) returns (n: nat)
    requires Inv(s) && s.run.cursor.None? && s.decisions == map[] && Passed(RunFrom(s, actions).run.cursor, e)
    ensures PassedAt(s, actions, n, e)
    ensures IsSettled(RunFrom(s, actions), e) <==> Candidate(RunFrom(s, actions[..n]), e)
  {
    hide Next, Inv;
    var last := |actions| - 1;
    var before := RunFrom(s, actions[..last]);
    RunKeepsInv(s, actions[..last]);
    SettlingPasses(before, actions[last], e);
    assert actions[..last + 1] == actions;
    if Passed(before.run.cursor, e) {
      n := SettledWhenPassed(s, actions[..last], e);
      assert actions[..last][..n] == actions[..n] && actions[..last][..n + 1] == actions[..n + 1];
    } else {
      n := last;
      SettledIsPassed(before, e);
      if Candidate(before, e) {
        PassingSettles(before, actions[last], e);
      }
    }
  }

  lemma SettledIsPassed(s: State, e: Event)
    requires Inv(s)
    ensures IsSettled(s, e) ==> Passed(s.run.cursor, e)
  {
    hide CountsInv, TasksInv, TurnsInv;
  }

  /** When a run completes, the cursor has passed every candidate, and a candidate has a settled
      decision if and only if it was a candidate already when the cursor passed it. */
  lemma DecidedIffRecognisedInTime(now: int, live: map<Event, Info>, retired: set<Event>, snapshotAt: int, actions: seq<Action>,
                                   last: Action, e: Event)
    returns (n: nat)
    requires live.Keys !! retired
    requires Completes(Scan(now, live, retired, snapshotAt, actions), last)
    requires Candidate(Next(Scan(now, live, retired, snapshotAt, actions), last), e)
    ensures PassedAt(Start(now, live, retired, snapshotAt), actions, n, e)
    ensures IsSettled(Next(Scan(now, live, retired, snapshotAt, actions), last), e)
            <==> Candidate(Scan(now, live, retired, snapshotAt, actions[..n]), e)
  {
    hide Next, RunFrom, Inv, Completes;
    var s := Start(now, live, retired, snapshotAt);
    StartInv(now, live, retired, snapshotAt);
    CompletionSeesNothingNext(RunFrom(s, actions), last);
    assert !Eligible(RunFrom(s, actions), e);
    n := SettledWhenPassed(s, actions, e);
  }

  /** So an event recognised from start to completion is merged away or has a settled decision. */
  lemma RecognisedFromStartIsDecided(now: int, live: map<Event, Info>, retired: set<Event>, snapshotAt: int, actions: seq<Action>,
                                     last: Action, e: Event)
    requires live.Keys !! retired && e in live && live[e].recognised && e.createdAt <= snapshotAt
    requires Completes(Scan(now, live, retired, snapshotAt, actions), last)
    requires KeptRecognised(Start(now, live, retired, snapshotAt), actions, e)
    ensures var t := Next(Scan(now, live, retired, snapshotAt, actions), last);
            e in t.retired || IsSettled(t, e)
  {
    hide Next, RunFrom, Inv, Completes, KeptRecognised;
    var s := Start(now, live, retired, snapshotAt);
    StartInv(now, live, retired, snapshotAt);
    RecognisedIsNeverSkipped(s, actions, e);
    CompletionSeesNothingNext(RunFrom(s, actions), last);
    assert !Eligible(RunFrom(s, actions), e);
  }

  /** What the cursor has passed without a settled decision never gets one, in any continuation. */
  lemma {:induction false} PassedStaysUndecided(s: State, actions: seq<Action>, e: Event)
    requires Inv(s) && Passed(s.run.cursor, e) && !IsSettled(s, e)
    ensures Passed(RunFrom(s, actions).run.cursor, e) && !IsSettled(RunFrom(s, actions), e)
  {
    hide Next, Inv;
    if actions != [] {
      PassedStaysUndecided(s, actions[..|actions| - 1], e);
      RunKeepsInv(s, actions[..|actions| - 1]);
      SettlingPasses(RunFrom(s, actions[..|actions| - 1]), actions[|actions| - 1], e);
    }
  }

  // The gap that `late` closes is real: an event that gains its first recognised source behind the
  // cursor ends without a decision and without anything merged into it.

  const EARLY := Event(1, 1)
  const LATE := Event(2, 2)

  function Plain(recognised: bool): map<Event, Info> {
    map[EARLY := Info(recognised, false, true), LATE := Info(true, false, true)]
  }

  function Claimed(): State {
    Start(0, Plain(false), {}, 5).(tasks := map[Root := Task(Running, Some(0), 10, false, false, 0)], issued := 1)
  }

  function Stepped(): State {
    Claimed().(decisions := map[LATE := Decision(Unmatched, {}, None)], steppers := [Root],
               run := Run(Ready, 5, Some(LATE), 1, Some(Root), false, 0, 1, 0, 0, 1, 0))
  }

  function Arrived(): State {
    Stepped().(live := Plain(true), late := {EARLY})
  }

  lemma ClaimExample()
    ensures Next(Start(0, Plain(false), {}, 5), DoClaim(Root, 10)) == Claimed()
  {
  }

  function Alone(): Grouping {
    Grouping({LATE}, false, {})
  }

  lemma JudgedExample()
    ensures LATE in Claimed().live && Judged(Claimed().live[LATE], Alone(), Refused) == Decision(Unmatched, {}, None)
  {
    assert |{LATE}| == 1;
  }

  lemma DecidedExample()
    ensures Decided(Claimed(), Root, LATE, Decision(Unmatched, {}, None), Refused) == Stepped()
  {
  }

  lemma NextExample()
    ensures IsNext(Claimed(), Some(LATE)) && Answers(Claimed(), LATE, Alone(), Refused)
  {
  }

  lemma StepExample()
    ensures Next(Claimed(), DoStep(Root, 0, Some(LATE), Alone(), Refused)) == Stepped()
  {
    hide Judged, Decided, IsNext, Answers, Alone, Stepped;
    JudgedExample();
    DecidedExample();
    NextExample();
  }

  lemma ArrivalExample()
    ensures Next(Stepped(), DoWorld(Plain(true), {})) == Arrived()
  {
    assert WorldMayBecome(Stepped(), Plain(true), {});
    assert Arrivals(Stepped(), Plain(true)) == {EARLY};
  }

  lemma RunOneMore(s: State, actions: seq<Action>, a: Action)
    ensures RunFrom(s, actions + [a]) == Next(RunFrom(s, actions), a)
  {
    assert (actions + [a])[..|actions|] == actions;
  }

  ghost predicate Missed(s: State, e: Event) {
    && e in s.live && s.live[e].recognised && e.createdAt <= s.run.snapshotAt
    && e !in s.decisions && forall d :: d in s.decisions ==> s.decisions[d].target.None?
  }

  lemma ArrivalsStayUndecided() returns (actions: seq<Action>, last: Action)
    ensures var s := Scan(0, Plain(false), {}, 5, actions);
            Completes(s, last) && Missed(Next(s, last), EARLY)
  {
    var s := Start(0, Plain(false), {}, 5);
    var a, b, c := DoClaim(Root, 10), DoStep(Root, 0, Some(LATE), Alone(), Refused), DoWorld(Plain(true), {});
    actions, last := ([] + [a]) + [b] + [c], DoStep(Root, 0, None, Grouping({}, false, {}), Refused);
    RunOneMore(s, [], a);
    RunOneMore(s, [] + [a], b);
    RunOneMore(s, [] + [a] + [b], c);
    ClaimExample();
    StepExample();
    ArrivalExample();
    CompletionExample(last);
  }

  lemma CompletionExample(last: Action)
    requires last == DoStep(Root, 0, None, Grouping({}, false, {}), Refused)
    ensures Next(Arrived(), last) == Arrived().(run := Arrived().run.(status := Completed))
  {
    assert IsNext(Arrived(), None);
  }

  /** The counters are the numbers of decisions, and the merged counter the editions this run retired. */
  lemma CountersMatchDecisions(now: int, live: map<Event, Info>, retired: set<Event>, snapshotAt: int, actions: seq<Action>)
    requires live.Keys !! retired
    ensures CountsInv(Scan(now, live, retired, snapshotAt, actions))
    ensures var s := Scan(now, live, retired, snapshotAt, actions);
            s.run.scanned == s.run.review + s.run.unmatched + s.run.foreign + |Having(s.decisions, Merged)|
  {
    hide RunFrom, CursorInv, TasksInv, TurnsInv, Having, Settled;
    StartInv(now, live, retired, snapshotAt);
    RunKeepsInv(Start(now, live, retired, snapshotAt), actions);
    SettledSplit(Scan(now, live, retired, snapshotAt, actions).decisions);
  }

  lemma SettledSplit(ds: map<Event, Decision>)
    ensures |Settled(ds)| == |Having(ds, InReview)| + |Having(ds, Unmatched)| + |Having(ds, Foreign)| + |Having(ds, Merged)|
  {
    var r, u, f, m := Having(ds, InReview), Having(ds, Unmatched), Having(ds, Foreign), Having(ds, Merged);
    assert r !! u && (r + u) !! f && (r + u + f) !! m;
    assert Settled(ds) == r + u + f + m;
  }

  /** A step that settles a decision moves the cursor strictly forward in creation order, to the event
      it decided; nothing else moves it. So the events still ahead shrink with every such step. */
  lemma CursorGrows(s: State, a: Action)
    ensures Next(s, a).run.scanned == s.run.scanned ==> Next(s, a).run.cursor == s.run.cursor
    ensures Next(s, a).run.scanned != s.run.scanned ==>
              && Next(s, a).run.cursor.Some?
              && (s.run.cursor.Some? ==> Before(s.run.cursor.value, Next(s, a).run.cursor.value))
              && Eligible(s, Next(s, a).run.cursor.value)
              && (forall e :: Eligible(Next(s, a), e) && e in s.live && s.live[e].recognised ==>
                    Eligible(s, e) && e != Next(s, a).run.cursor.value)
  {
    hide Next, Decided;
    if a.DoStep? {
      ScanStepView(s, a);
      if a.next.Some? && Enabled(s, a) {
        DecidedCursor(s, a);
      }
    } else {
      QuietAction(s, a);
    }
  }

  lemma DecidedCursor(s: State, a: Action)
    requires a.DoStep? && a.next.Some? && Enabled(s, a)
    ensures var e := a.next.value;
            var t := Decided(s, a.task, e, Judged(s.live[e], a.g, a.attempt), a.attempt);
            && t.run.snapshotAt == s.run.snapshotAt
            && (t.run.scanned == s.run.scanned ==> t.run.cursor == s.run.cursor)
            && (t.run.scanned != s.run.scanned ==> t.run.cursor == Some(e))
  {
    hide Judged, Answers;
  }

  /** At most one task of the run is queued or running. */
  lemma OneTaskAtATime(now: int, live: map<Event, Info>, retired: set<Event>, snapshotAt: int, actions: seq<Action>, a: TaskKey, b: TaskKey)
    requires live.Keys !! retired
    ensures var s := Scan(now, live, retired, snapshotAt, actions);
            a in s.tasks && b in s.tasks && Active(s.tasks[a]) && Active(s.tasks[b]) ==> a == b
  {
    hide RunFrom, CursorInv, CountsInv, TurnsInv;
    StartInv(now, live, retired, snapshotAt);
    RunKeepsInv(Start(now, live, retired, snapshotAt), actions);
  }

  /** The task the coordinator enqueues is never stale: once claimed, its first step goes through. */
  lemma ContinuationIsCurrent(s: State, capacity: bool, leaseUntil: int, next: Option<Event>, g: Grouping, attempt: Attempt)
    requires Coordinate(s, capacity).tasks != s.tasks && s.now < leaseUntil
    requires next.Some? ==> next.value in s.live
    ensures var key, t := Continuation(s.run.sequence), Coordinate(s, capacity);
            && Enabled(t, DoClaim(key, leaseUntil))
            && Step(Next(t, DoClaim(key, leaseUntil)), key, t.issued, next, g, attempt).Success?
  {
    hide SomeActive, Judged, Decided;
  }

  /** The steps of different tasks never interleave. */
  lemma TurnsAreConsecutive(now: int, live: map<Event, Info>, retired: set<Event>, snapshotAt: int, actions: seq<Action>, i: nat, j: nat, k: nat)
    requires live.Keys !! retired
    requires i < j < k < |Scan(now, live, retired, snapshotAt, actions).steppers|
    ensures var steppers := Scan(now, live, retired, snapshotAt, actions).steppers;
            steppers[i] == steppers[k] ==> steppers[j] == steppers[i]
  {
    hide RunFrom, CursorInv, CountsInv, TasksInv;
    StartInv(now, live, retired, snapshotAt);
    RunKeepsInv(Start(now, live, retired, snapshotAt), actions);
  }

  /** Once another task has stepped the run, an earlier one is turned away for good, even with a live lease. */
  lemma FormerTaskIsRefused(s: State, task: TaskKey, token: nat, next: Option<Event>, g: Grouping, attempt: Attempt)
    requires Inv(s) && task in s.steppers && s.steppers[|s.steppers| - 1] != task
    requires next.Some? ==> next.value in s.live
    ensures Step(s, task, token, next, g, attempt)
            == Failure(if LeaseLive(s, task, token) then CheckpointStale else LeaseLost)
  {
    hide CursorInv, CountsInv, TasksInv;
  }

  lemma SteppersOnlyGrow(s: State, a: Action)
    ensures s.steppers <= Next(s, a).steppers
  {
    hide Next, Judged;
    if a.DoStep? {
      ScanStepView(s, a);
    } else {
      QuietAction(s, a);
    }
  }

  /** And it stays so: an earlier task is refused in every state the run ever comes to. */
  lemma {:induction false} FormerTaskNeverReturns(s: State, actions: seq<Action>, task: TaskKey)
    requires Inv(s) && task in s.steppers && s.steppers[|s.steppers| - 1] != task
    ensures var t := RunFrom(s, actions);
            && Inv(t) && s.steppers <= t.steppers && task in t.steppers && t.steppers[|t.steppers| - 1] != task
            && forall token, next: Option<Event>, g, attempt :: (next.Some? ==> next.value in t.live) ==>
                 Step(t, task, token, next, g, attempt).Failure?
  {
    hide Next, Inv, Step;
    RunKeepsInv(s, actions);
    if actions != [] {
      var n := |actions| - 1;
      FormerTaskNeverReturns(s, actions[..n], task);
      var before := RunFrom(s, actions[..n]);
      SteppersOnlyGrow(before, actions[n]);
      LastStaysOther(RunFrom(s, actions), task, |before.steppers| - 1);
    }
    forall token, next: Option<Event>, g, attempt | next.Some? ==> next.value in RunFrom(s, actions).live
      ensures Step(RunFrom(s, actions), task, token, next, g, attempt).Failure?
    {
      FormerTaskIsRefused(RunFrom(s, actions), task, token, next, g, attempt);
    }
  }

  lemma LastStaysOther(t: State, task: TaskKey, n: nat)
    requires Inv(t) && n < |t.steppers| && t.steppers[n] != task && task in t.steppers[..n + 1]
    ensures task in t.steppers && t.steppers[|t.steppers| - 1] != task
  {
    hide CountsInv, CursorInv, TasksInv;
    var i :| 0 <= i < n + 1 && t.steppers[i] == task;
  }
}
