/**
 The persisted weekly schedule: configuration revisions, the occurrences created for them, and
 the intervals of weekly dates those occurrences account for.
 */
module WeeklySchedule {
  import opened Wrappers
  import opened WeeklyClock

  const EPOCH_MONDAY := 4 // 1970-01-05

  datatype RunStatus =
    | Discovery | Enrichment | Reconciliation | Blocked
    | Completed | CompletedWithReview | Partial | Cancelled

  predicate Terminal(status: RunStatus) {
    status.Completed? || status.CompletedWithReview? || status.Partial? || status.Cancelled?
  }

  datatype Options = Options(historicalEveryWeeks: int, recentDays: int)

  predicate ValidOptions(o: Options) {
    1 <= o.historicalEveryWeeks <= 52 && 1 <= o.recentDays <= 365
  }

  /** One created occurrence with the options it was created under. */
  datatype Run = Run(revision: nat, firstDueLocalDate: int, localDate: int, coalescedWeeks: int,
                     options: Options, historical: bool, from: Option<int>, status: RunStatus)

  datatype Refusal = ConfigurationInvalid | RevisionConflict | CapacityWait | NotFound | Finished | InUse

  datatype Poll = Waiting | Observed | Created | ClockRefused

  /** What a poll of the coordinator finds outside the schedule row. */
  datatype Surroundings =
    Surroundings(observed: RunStatus, campaignActive: bool, nationalSyncActive: bool, capacity: bool)

  function Week(day: int): int {
    (day - EPOCH_MONDAY) / 7
  }

  function CeilDiv(a: int, n: int): int
    requires n > 0
  {
    -((-a) / n)
  }

  function IsHistorical(first: int, last: int, everyWeeks: int): bool
    requires everyWeeks > 0
  {
    CeilDiv(Week(first), everyWeeks) <= Week(last) / everyWeeks
  }

  function OccurrenceOptions(first: int, last: int, o: Options): (bool, Option<int>)
    requires ValidOptions(o)
  {
    var historical := IsHistorical(first, last, o.historicalEveryWeeks);
    (historical, if historical then None else Some(last - o.recentDays))
  }

  /** An interval of weeks is swept historically exactly when it holds a multiple of the period. */
  lemma HistoricalHoldsMultiple(first: int, last: int, everyWeeks: int)
    requires everyWeeks > 0
    ensures IsHistorical(first, last, everyWeeks) <==>
            exists w :: Week(first) <= w <= Week(last) && w % everyWeeks == 0
  {
    var a, b, n := Week(first), Week(last), everyWeeks;
    var c := CeilDiv(a, n);
    CeilingBounds(a, n);
    if c <= b / n {
      MultipleBelow(b, c, n);
      MultipleRemainder(c, n);
      assert Week(first) <= c * n <= Week(last) && (c * n) % everyWeeks == 0;
    }
    if w :| a <= w <= b && w % n == 0 {
      var q := w / n;
      assert w == q * n;
      CeilingLeast(a, q, n);
      MultipleBelow(b, q, n);
    }
  }

  lemma CeilingBounds(a: int, n: int)
    requires n > 0
    ensures CeilDiv(a, n) * n - n < a <= CeilDiv(a, n) * n
  {
  }

  lemma MultiplesOrdered(x: int, y: int, n: int)
    requires n > 0
    ensures x <= y <==> x * n <= y * n
  {
    if x <= y {
      assert (y - x) * n >= 0;
    } else {
      assert (x - y) * n > 0;
    }
  }

  lemma CeilingLeast(a: int, q: int, n: int)
    requires n > 0 && a <= q * n
    ensures CeilDiv(a, n) <= q
  {
    CeilingBounds(a, n);
    MultiplesOrdered(q, CeilDiv(a, n) - 1, n);
  }

  lemma MultipleBelow(b: int, q: int, n: int)
    requires n > 0
    ensures q <= b / n <==> q * n <= b
  {
    assert b == b / n * n + b % n;
    MultiplesOrdered(q, b / n, n);
    MultiplesOrdered(b / n + 1, q, n);
  }

  lemma MultipleRemainder(q: int, n: int)
    requires n > 0
    ensures (q * n) % n == 0
  {
    assert q * n == (q * n) / n * n + (q * n) % n;
    MultipleBelow(q * n, q, n);
    MultipleBelow(q * n, q + 1, n);
  }

  // --- The invariant on the created occurrences ---------------------------------------------

  ghost predicate WellFormed(run: Run) {
    && ValidOptions(run.options)
    && run.coalescedWeeks >= 0
    && run.localDate - run.firstDueLocalDate == 7 * run.coalescedWeeks
    && run.historical == IsHistorical(run.firstDueLocalDate, run.localDate, run.options.historicalEveryWeeks)
    && run.from == (if run.historical then None else Some(run.localDate - run.options.recentDays))
  }

  /** Consecutive occurrences of one revision share options and leave no week between them. */
  ghost predicate Follows(p: Run, q: Run) {
    && p.revision <= q.revision
    && (p.revision == q.revision ==> q.firstDueLocalDate == p.localDate + 7 && q.options == p.options)
  }

  ghost predicate Tiled(runs: seq<Run>) {
    && (forall i :: 0 <= i < |runs| ==> WellFormed(runs[i]))
    && (forall i, j :: 0 <= i < j < |runs| && j == i + 1 ==> Follows(runs[i], runs[j]))
  }

  ghost predicate Covers(run: Run, date: int) {
    run.firstDueLocalDate <= date <= run.localDate
  }

  ghost predicate CoversWeek(run: Run, week: int) {
    Week(run.firstDueLocalDate) <= week <= Week(run.localDate)
  }

  lemma DayFromWeek(day: int)
    ensures day == 7 * Week(day) + EPOCH_MONDAY + Weekday(day) - 1 && 1 <= Weekday(day) <= 7
  {
  }

  lemma WholeWeeks(day: int, n: int)
    ensures Week(day + 7 * n) == Week(day) + n && Weekday(day + 7 * n) == Weekday(day)
  {
  }

  lemma RunInWeeks(run: Run)
    requires WellFormed(run)
    ensures Week(run.localDate) == Week(run.firstDueLocalDate) + run.coalescedWeeks
    ensures Weekday(run.localDate) == Weekday(run.firstDueLocalDate)
  {
    WholeWeeks(run.firstDueLocalDate, run.coalescedWeeks);
  }

  lemma {:induction false} SameRevisionOrdered(runs: seq<Run>, i: nat, j: nat)
    requires Tiled(runs) && i < j < |runs| && runs[i].revision == runs[j].revision
    ensures Week(runs[i].localDate) < Week(runs[j].firstDueLocalDate)
    ensures Weekday(runs[i].firstDueLocalDate) == Weekday(runs[j].firstDueLocalDate)
    ensures runs[i].options == runs[j].options
    decreases j
  {
    RevisionsAscend(runs, i, j - 1);
    assert Follows(runs[j - 1], runs[j]);
    RunInWeeks(runs[j - 1]);
    WholeWeeks(runs[j - 1].localDate, 1);
    if i < j - 1 {
      SameRevisionOrdered(runs, i, j - 1);
    }
  }

  lemma {:induction false} RevisionsAscend(runs: seq<Run>, i: nat, j: nat)
    requires Tiled(runs) && i <= j < |runs|
    ensures runs[i].revision <= runs[j].revision
    decreases j
  {
    if i < j {
      RevisionsAscend(runs, i, j - 1);
      assert Follows(runs[j - 1], runs[j]);
    }
  }

  /** Every week from the first to the last date of a revision is accounted for by exactly one of
      its occurrences. */
  lemma {:induction false} EachWeekInOneOccurrence(runs: seq<Run>, i: nat, j: nat, week: int) returns (k: nat)
    requires Tiled(runs) && i <= j < |runs| && runs[i].revision == runs[j].revision
    requires Week(runs[i].firstDueLocalDate) <= week <= Week(runs[j].localDate)
    ensures i <= k <= j && CoversWeek(runs[k], week) && runs[k].revision == runs[i].revision
    ensures forall n :: 0 <= n < |runs| && runs[n].revision == runs[i].revision && CoversWeek(runs[n], week) ==> n == k
    decreases j
  {
    RevisionsAscend(runs, i, j);
    if week >= Week(runs[j].firstDueLocalDate) {
      k := j;
      OnlyCover(runs, k, week);
    } else {
      assert i < j;
      RevisionsAscend(runs, i, j - 1);
      assert Follows(runs[j - 1], runs[j]);
      WholeWeeks(runs[j - 1].localDate, 1);
      k := EachWeekInOneOccurrence(runs, i, j - 1, week);
    }
  }

  lemma OnlyCover(runs: seq<Run>, k: nat, week: int)
    requires Tiled(runs) && k < |runs| && CoversWeek(runs[k], week)
    ensures forall n :: 0 <= n < |runs| && runs[n].revision == runs[k].revision && CoversWeek(runs[n], week) ==> n == k
  {
    forall n | 0 <= n < |runs| && runs[n].revision == runs[k].revision && CoversWeek(runs[n], week)
      ensures n == k
    {
      if n < k {
        SameRevisionOrdered(runs, n, k);
      } else if k < n {
        SameRevisionOrdered(runs, k, n);
      }
    }
  }

  /** The intervals of one revision's occurrences tile its weekly dates: no gap and no overlap. */
  lemma EachDateInOneOccurrence(runs: seq<Run>, i: nat, j: nat, date: int) returns (k: nat)
    requires Tiled(runs) && i <= j < |runs| && runs[i].revision == runs[j].revision
    requires runs[i].firstDueLocalDate <= date <= runs[j].localDate
    requires Weekday(date) == Weekday(runs[i].firstDueLocalDate)
    ensures i <= k <= j && Covers(runs[k], date)
    ensures forall n :: 0 <= n < |runs| && runs[n].revision == runs[i].revision && Covers(runs[n], date) ==> n == k
  {
    DayFromWeek(date);
    forall n | 0 <= n < |runs| && runs[n].revision == runs[i].revision
      ensures Covers(runs[n], date) <==> CoversWeek(runs[n], Week(date))
      ensures n == i ==> Week(runs[i].firstDueLocalDate) <= Week(date)
      ensures n == j ==> Week(date) <= Week(runs[j].localDate)
    {
      RunInWeeks(runs[n]);
      DayFromWeek(runs[n].firstDueLocalDate);
      DayFromWeek(runs[n].localDate);
      if n < i {
        SameRevisionOrdered(runs, n, i);
      } else if i < n {
        SameRevisionOrdered(runs, i, n);
      }
    }
    k := EachWeekInOneOccurrence(runs, i, j, Week(date));
  }

  /** Every week divisible by the period that falls within a revision is swept by exactly one of
      its occurrences, and that occurrence is historical. */
  lemma HistoricalWeekSweptOnce(runs: seq<Run>, i: nat, j: nat, week: int) returns (k: nat)
    requires Tiled(runs) && i <= j < |runs| && runs[i].revision == runs[j].revision
    requires Week(runs[i].firstDueLocalDate) <= week <= Week(runs[j].localDate)
    requires runs[i].options.historicalEveryWeeks > 0 && week % runs[i].options.historicalEveryWeeks == 0
    ensures i <= k <= j && CoversWeek(runs[k], week) && runs[k].historical
    ensures forall n :: 0 <= n < |runs| && runs[n].revision == runs[i].revision && CoversWeek(runs[n], week) ==> n == k
  {
    k := EachWeekInOneOccurrence(runs, i, j, week);
    if i < k {
      SameRevisionOrdered(runs, i, k);
    }
    assert WellFormed(runs[k]);
    HistoricalHoldsMultiple(runs[k].firstDueLocalDate, runs[k].localDate, runs[k].options.historicalEveryWeeks);
  }

  // --- The schedule row and its transactions ------------------------------------------------

  function WithStatus(runs: seq<Run>, k: nat, status: RunStatus): (changed: seq<Run>)
    requires k < |runs|
    ensures |changed| == |runs|
    ensures changed[k] == runs[k].(status := status) && forall i :: 0 <= i < |runs| && i != k ==> changed[i] == runs[i]
    ensures Tiled(runs) ==> Tiled(changed)
  {
    var changed := runs[k := runs[k].(status := status)];
    assert forall i :: 0 <= i < |runs| && i != k ==> changed[i] == runs[i];
    changed
  }

  function Appended(runs: seq<Run>, run: Run): (longer: seq<Run>)
    ensures longer == runs + [run]
    ensures Tiled(runs) && WellFormed(run) && (|runs| > 0 ==> Follows(runs[|runs| - 1], run)) ==> Tiled(longer)
  {
    runs + [run]
  }

  /** The coalesced occurrence stands for exactly `dates`, and the schedule continues a week later. */
  ghost predicate SpansDates(c: Coalesced, first: int, slot: Slot, dates: seq<int>) {
    && dates != []
    && c.coalescedWeeks + 1 == |dates|
    && c.firstDueLocalDate == first
    && c.latest.localDate == dates[|dates| - 1] == first + 7 * c.coalescedWeeks
    && c.next.localDate == c.latest.localDate + 7
    && IsSlotDate(Some(c.next.localDate), slot)
  }

  class CatalogWeekly {
    const zone: Zone
    var enabled: bool
    var revision: nat
    var slot: Slot
    var options: Options
    var nextLocalDate: Option<int>
    var runs: seq<Run>

    /** The next date continues the current revision, and only the last occurrence can be active. */
    ghost predicate Valid()
      reads this
    {
      && SupportedZone(zone)
      && Tiled(runs)
      && (forall i :: 0 <= i < |runs| ==> runs[i].revision <= revision)
      && (forall i :: 0 <= i < |runs| - 1 ==> Terminal(runs[i].status))
      && (revision == 0 ==> !enabled && runs == [])
      && (revision > 0 ==> ValidSlot(slot) && ValidOptions(options) && IsSlotDate(nextLocalDate, slot))
      && (|runs| > 0 && runs[|runs| - 1].revision == revision ==>
            && nextLocalDate == Some(runs[|runs| - 1].localDate + 7)
            && runs[|runs| - 1].options == options)
    }

    constructor (zone: Zone)
      requires SupportedZone(zone)
      ensures Valid() && revision == 0 && runs == []
    {
      this.zone := zone;
      enabled, revision, slot, options := false, 0, Slot(1, 8, 0), Options(4, 90);
      nextLocalDate, runs := None, [];
    }

    predicate Active()
      reads this
    {
      |runs| > 0 && !Terminal(runs[|runs| - 1].status)
    }

    method Configure(nowMs: int, enable: bool, newSlot: Slot, newOptions: Options, expectedRevision: nat, capacity: bool)
      returns (r: Result<nat, Refusal>)
      requires Valid()
      modifies this
      ensures Valid() && runs == old(runs)
      ensures r.Failure? ==>
                enabled == old(enabled) && revision == old(revision) && slot == old(slot) &&
                options == old(options) && nextLocalDate == old(nextLocalDate)
      ensures r.Success? ==>
                && expectedRevision == old(revision) && revision == old(revision) + 1 == r.value
                && enabled == enable && slot == newSlot && options == newOptions
                && (exists first :: IsFirstAfter(zone, nowMs, slot, first) && nextLocalDate == Some(first.localDate))
      ensures r.Success? <==>
                && ValidOptions(newOptions) && ValidSlot(newSlot) && ValidNow(nowMs)
                && !FirstOccurrencesBegin(zone, nowMs, newSlot)
                && expectedRevision == old(revision)
                && (enable ==> capacity)
    {
      var next := WeeklyOccurrenceAfter(zone, nowMs, newSlot);
      if !ValidOptions(newOptions) || next.Failure? {
        return Failure(ConfigurationInvalid);
      }
      if revision != expectedRevision {
        return Failure(RevisionConflict);
      }
      if enable && !capacity {
        return Failure(CapacityWait);
      }
      enabled, slot, options, revision := enable, newSlot, newOptions, expectedRevision + 1;
      nextLocalDate := Some(next.value.localDate);
      r := Success(revision);
    }

    /** The weekly dates that are due, stepping from the stored next date. */
    ghost function Due(nowMs: int): seq<int>
      requires Valid()
      reads this
    {
      if revision == 0 then [] else DueDates(zone, nowMs, slot, nextLocalDate.value)
    }

    /** One poll: observe the active occurrence, or create the single occurrence that is due. */
    method Coordinate(nowMs: int, around: Surroundings) returns (poll: Poll)
      requires Valid()
      modifies this`nextLocalDate, this`runs
      ensures Valid()
      ensures poll.ClockRefused? ==> !ValidNow(nowMs)
      ensures poll.Waiting? || poll.ClockRefused? ==> nextLocalDate == old(nextLocalDate) && runs == old(runs)
      ensures poll.Observed? <==> old(Active())
      ensures poll.Observed? ==>
                nextLocalDate == old(nextLocalDate) && |old(runs)| > 0 && runs == WithStatus(old(runs), |old(runs)| - 1, around.observed)
      ensures poll.Created? <==>
                && !old(Active()) && enabled && ValidNow(nowMs) && old(Due(nowMs)) != []
                && !around.campaignActive && !around.nationalSyncActive && around.capacity
      ensures poll.Created? ==>
                && |old(runs)| < |runs| && runs[..|old(runs)|] == old(runs) && |runs| == |old(runs)| + 1
                && IsNewRun(runs[|old(runs)|], old(nextLocalDate), old(Due(nowMs)))
                && nextLocalDate == Some(runs[|old(runs)|].localDate + 7)
    {
      hide Due, DueDates, Tiled, IsNewRun, ValidNow, Appended, SpansDates;
      if Active() {
        Observe(|runs| - 1, around.observed);
        return Observed;
      }
      if !enabled || nextLocalDate.None? {
        return Waiting;
      }
      if !ValidNow(nowMs) {
        return ClockRefused;
      }
      ghost var dates := Due(nowMs);
      var due := FindDue(nowMs);
      if due.None? {
        return Waiting;
      }
      if around.campaignActive || around.nationalSyncActive || !around.capacity {
        return Waiting;
      }
      CreateOccurrence(dates, due.value);
      poll := Created;
    }

    /** The created occurrence of the current revision spans exactly the due dates. */
    ghost predicate IsNewRun(run: Run, next: Option<int>, due: seq<int>)
      reads this
    {
      && due != []
      && run.revision == revision && run.options == options && run.status == Discovery
      && Some(run.firstDueLocalDate) == next
      && run.localDate == due[|due| - 1]
      && run.coalescedWeeks + 1 == |due|
    }

    method FindDue(nowMs: int) returns (due: Option<Coalesced>)
      requires Valid() && ValidNow(nowMs) && revision > 0
      ensures due.None? <==> Due(nowMs) == []
      ensures due.Some? ==> SpansDates(due.value, nextLocalDate.value, slot, Due(nowMs))
    {
      var result := CoalesceWeeklyOccurrences(zone, nextLocalDate, nowMs, slot);
      due := result.value;
      if due.Some? {
        DueSpan(zone, nowMs, slot, nextLocalDate.value, due.value);
      }
    }

    /** Record the coalesced occurrence and move the schedule to the week after it. */
    method CreateOccurrence(ghost dates: seq<int>, due: Coalesced)
      requires Valid() && revision > 0 && !Active()
      requires SpansDates(due, nextLocalDate.value, slot, dates)
      modifies this`nextLocalDate, this`runs
      ensures Valid()
      ensures |old(runs)| < |runs| && runs[..|old(runs)|] == old(runs) && |runs| == |old(runs)| + 1
      ensures IsNewRun(runs[|old(runs)|], old(nextLocalDate), dates)
      ensures nextLocalDate == Some(runs[|old(runs)|].localDate + 7)
    {
      var (historical, from) := OccurrenceOptions(due.firstDueLocalDate, due.latest.localDate, options);
      runs := Appended(runs, Run(revision, due.firstDueLocalDate, due.latest.localDate, due.coalescedWeeks,
                                 options, historical, from, Discovery));
      nextLocalDate := Some(due.next.localDate);
    }

    /** Only the last occurrence can be active, so only its status ever changes. */
    method Observe(index: nat, status: RunStatus)
      requires Valid() && index < |runs| && !Terminal(runs[index].status)
      modifies this`runs
      ensures Valid() && runs == WithStatus(old(runs), index, status)
    {
      runs := WithStatus(runs, index, status);
    }

    method Cancel(index: nat, stepRunning: bool) returns (r: Result<(), Refusal>)
      requires Valid()
      modifies this`runs
      ensures Valid()
      ensures r.Failure? ==> runs == old(runs)
      ensures r.Success? ==> index < |old(runs)| && runs == WithStatus(old(runs), index, Cancelled)
      ensures r.Success? <==> index < |old(runs)| && !Terminal(old(runs)[index].status) && !stepRunning
    {
      if index >= |runs| {
        return Failure(NotFound);
      }
      if Terminal(runs[index].status) {
        return Failure(Finished);
      }
      if stepRunning {
        return Failure(InUse);
      }
      Observe(index, Cancelled);
      r := Success(());
    }
  }

  lemma DueSpan(z: Zone, nowMs: int, slot: Slot, first: int, c: Coalesced)
    requires SupportedZone(z) && ValidSlot(slot) && IsSlotDate(Some(first), slot)
    requires CoalescesDue(z, nowMs, slot, first, c)
    ensures SpansDates(c, first, slot, DueDates(z, nowMs, slot, first))
  {
    DueDatesStep(z, nowMs, slot, first, |DueDates(z, nowMs, slot, first)| - 1);
    WholeWeeks(c.latest.localDate, 1);
  }

  lemma {:induction false} DueDatesStep(z: Zone, nowMs: int, slot: Slot, first: int, k: nat)
    requires SupportedZone(z) && ValidSlot(slot) && k < |DueDates(z, nowMs, slot, first)|
    ensures DueDates(z, nowMs, slot, first)[k] == first + 7 * k
    decreases k
  {
    if k > 0 {
      DueDatesStep(z, nowMs, slot, first + 7, k - 1);
    }
  }
}
