/**
 The weekly recurrence clock. Instants are whole minutes since the Unix epoch (the caller's
 `now` is in milliseconds), local dates are day numbers since 1970-01-01, and a time zone is
 any function from an instant to its offset in minutes.
 */
module WeeklyClock {
  import opened Wrappers

  const MINUTE_MS := 60000
  const DAY_MINUTES := 1440
  const FIRST_DAY := -25567 // 1900-01-01
  const LAST_DAY := 2932896 // 9999-12-31
  const NOW_LIMIT_DAY := 2932532 // 9999-01-01, the first day that `now` may not reach
  const MAX_SHIFT := 180
  const SAMPLE_REACH := 2160 // 36 hours either side of the nominal time

  type Zone = int -> int

  datatype Slot = Slot(weekday: int, hour: int, minute: int)

  datatype Occurrence = Occurrence(localDate: int, scheduledAt: int, shiftedMinutes: int)

  datatype Coalesced =
    Coalesced(latest: Occurrence, firstDueLocalDate: int, coalescedWeeks: int, next: Occurrence)

  datatype ClockError = TimeInvalid | DateInvalid | TimeUnresolvable

  /** The local wall-clock minute shown at an instant. */
  function Wall(z: Zone, instant: int): int {
    instant + z(instant)
  }

  function LocalDay(wall: int): int {
    wall / DAY_MINUTES
  }

  /** ISO weekday, 1 for Monday to 7 for Sunday; day 0 was a Thursday. */
  function Weekday(day: int): int {
    (day + 3) % 7 + 1
  }

  function Target(day: int, slot: Slot): int {
    day * DAY_MINUTES + slot.hour * 60 + slot.minute
  }

  predicate ValidSlot(slot: Slot) {
    1 <= slot.weekday <= 7 && 0 <= slot.hour <= 23 && 0 <= slot.minute <= 59
  }

  predicate ValidNow(nowMs: int) {
    FIRST_DAY * DAY_MINUTES * MINUTE_MS <= nowMs < NOW_LIMIT_DAY * DAY_MINUTES * MINUTE_MS
  }

  predicate ValidDate(day: int) {
    FIRST_DAY <= day <= LAST_DAY
  }

  predicate IsLater(instant: int, nowMs: int) {
    instant * MINUTE_MS > nowMs
  }

  // --- What a zone must satisfy for the recurrence promises to hold -------------------------

  ghost predicate IsTransition(z: Zone, m: int) {
    z(m) != z(m - 1)
  }

  /** Offsets reach at most 14 hours, a gap skips at most three hours without leaving its local
      day, and the local date never runs backwards. */
  ghost predicate RegularMinute(z: Zone, m: int) {
    && -840 <= z(m) <= 840
    && z(m) - z(m - 1) <= MAX_SHIFT
    && (z(m) > z(m - 1) ==> LocalDay(Wall(z, m - 1) + 1) == LocalDay(Wall(z, m)))
    && LocalDay(Wall(z, m - 1)) <= LocalDay(Wall(z, m))
  }

  ghost predicate SupportedZone(z: Zone) {
    && (forall m: int :: RegularMinute(z, m))
    && (forall a: int, b: int :: a < b && IsTransition(z, a) && IsTransition(z, b) ==> b - a >= 4800)
  }

  // --- Specification of one occurrence ------------------------------------------------------

  /** The occurrence of a nominal day: the earliest instant that shows the first local minute at
      or after the slot which exists on that day. */
  ghost predicate IsOccurrence(z: Zone, day: int, slot: Slot, o: Occurrence) {
    var wall := Target(day, slot) + o.shiftedMinutes;
    && o.localDate == day
    && o.shiftedMinutes >= 0
    && LocalDay(wall) == day
    && Shows(z, o.scheduledAt, wall)
    && (forall i: int, w: int :: Shows(z, i, w) && Target(day, slot) <= w ==> wall <= w)
    && (forall i: int :: Shows(z, i, wall) ==> o.scheduledAt <= i)
  }

  ghost predicate Shows(z: Zone, instant: int, wall: int) {
    Wall(z, instant) == wall
  }

  lemma OccurrenceUnique(z: Zone, day: int, slot: Slot, p: Occurrence, q: Occurrence)
    requires IsOccurrence(z, day, slot, p) && IsOccurrence(z, day, slot, q)
    ensures p == q
  {
  }

  lemma {:induction false} TransitionBetween(z: Zone, a: int, b: int) returns (t: int)
    requires a <= b && z(a) != z(b)
    ensures a < t <= b && IsTransition(z, t)
    decreases b - a
  {
    if IsTransition(z, b) {
      t := b;
    } else {
      t := TransitionBetween(z, a, b - 1);
    }
  }

  /** Two samples 72 hours apart see every offset in force between them. */
  lemma OffsetSampled(z: Zone, a: int, i: int, b: int)
    requires SupportedZone(z)
    requires a <= i <= b && b - a <= 2 * SAMPLE_REACH
    ensures z(i) == z(a) || z(i) == z(b)
  {
    if z(i) != z(a) && z(i) != z(b) {
      var s := TransitionBetween(z, a, i);
      var t := TransitionBetween(z, i, b);
    }
  }

  lemma {:induction false} FirstReaching(z: Zone, target: int, lo: int, hi: int) returns (i: int)
    requires lo < hi && Wall(z, lo) < target <= Wall(z, hi)
    ensures lo < i <= hi && Wall(z, i - 1) < target <= Wall(z, i)
    decreases hi - lo
  {
    if Wall(z, hi - 1) < target {
      i := hi;
    } else {
      i := FirstReaching(z, target, lo, hi - 1);
    }
  }

  /** Some minute within three hours of the slot exists on the nominal day. */
  lemma SlotReached(z: Zone, target: int) returns (i: int)
    requires SupportedZone(z)
    ensures target <= Wall(z, i) <= target + MAX_SHIFT
    ensures LocalDay(Wall(z, i)) == LocalDay(target)
  {
    assert RegularMinute(z, target - 841) && RegularMinute(z, target + 840);
    i := FirstReaching(z, target, target - 841, target + 840);
    assert RegularMinute(z, i);
  }

  lemma {:induction false} LocalDayMonotone(z: Zone, i: int, j: int)
    requires SupportedZone(z) && i <= j
    ensures LocalDay(Wall(z, i)) <= LocalDay(Wall(z, j))
    decreases j - i
  {
    if i < j {
      LocalDayMonotone(z, i, j - 1);
      assert RegularMinute(z, j);
    }
  }

  /** Every instant that shows a wall minute near the slot has one of the two sampled offsets. */
  lemma ShownWithSampledOffset(z: Zone, target: int, wall: int, i: int)
    requires SupportedZone(z) && target <= wall <= target + MAX_SHIFT && Wall(z, i) == wall
    ensures z(i) == z(target - SAMPLE_REACH) || z(i) == z(target + SAMPLE_REACH)
  {
    assert RegularMinute(z, i);
    OffsetSampled(z, target - SAMPLE_REACH, i, target + SAMPLE_REACH);
  }

  // --- resolveOccurrence --------------------------------------------------------------------

  /** The earliest instant among the candidates `wall - offset` that really shows `wall`. */
  method EarliestCandidate(z: Zone, offsets: seq<int>, wall: int) returns (at: Option<int>)
    ensures at.Some? ==> Shows(z, at.value, wall)
    ensures forall k :: 0 <= k < |offsets| && Shows(z, wall - offsets[k], wall) ==>
              at.Some? && at.value <= wall - offsets[k]
  {
    at := None;
    for n := 0 to |offsets|
      invariant at.Some? ==> Shows(z, at.value, wall)
      invariant forall k :: 0 <= k < n && Shows(z, wall - offsets[k], wall) ==>
                  at.Some? && at.value <= wall - offsets[k]
    {
      var instant := wall - offsets[n];
      if Wall(z, instant) == wall && (at.None? || instant < at.value) {
        at := Some(instant);
      }
    }
  }

  method ResolveOccurrence(z: Zone, day: int, slot: Slot) returns (r: Result<Occurrence, ClockError>)
    requires ValidSlot(slot)
    ensures SupportedZone(z) ==> r.Success? && IsOccurrence(z, day, slot, r.value)
    ensures r.Success? ==> r.value.localDate == day && 0 <= r.value.shiftedMinutes <= MAX_SHIFT
    ensures r.Success? ==> Wall(z, r.value.scheduledAt) == Target(day, slot) + r.value.shiftedMinutes
    ensures r.Failure? ==> r.error == TimeUnresolvable
  {
    var target := Target(day, slot);
    var offsets: seq<int> := [];
    var delta := -SAMPLE_REACH;
    while delta <= SAMPLE_REACH
      invariant -SAMPLE_REACH <= delta <= SAMPLE_REACH + 720 && delta % 720 == 0
      invariant delta > -SAMPLE_REACH ==> z(target - SAMPLE_REACH) in offsets
      invariant delta > SAMPLE_REACH ==> z(target + SAMPLE_REACH) in offsets
    {
      if z(target + delta) !in offsets {
        offsets := offsets + [z(target + delta)];
      }
      delta := delta + 720;
    }
    var shift := 0;
    while shift <= MAX_SHIFT
      invariant 0 <= shift <= MAX_SHIFT + 1
      invariant shift > 0 ==> LocalDay(target + shift - 1) == day
      invariant SupportedZone(z) ==> forall i: int, w: int :: Shows(z, i, w) && target <= w ==> target + shift <= w
    {
      var wall := target + shift;
      if LocalDay(wall) != day { break; }
      var earliest := EarliestCandidate(z, offsets, wall);
      forall i: int | SupportedZone(z) && Shows(z, i, wall)
        ensures earliest.Some? && earliest.value <= i
      {
        ShownWithSampledOffset(z, target, wall, i);
        var k :| 0 <= k < |offsets| && offsets[k] == wall - i;
        assert Shows(z, wall - offsets[k], wall);
      }
      if earliest.Some? {
        return Success(Occurrence(day, earliest.value, shift));
      }
      shift := shift + 1;
    }
    assert !SupportedZone(z) by {
      if SupportedZone(z) {
        var i := SlotReached(z, target);
        assert Shows(z, i, Wall(z, i));
      }
    }
    r := Failure(TimeUnresolvable);
  }

  // --- The weekly sequence of occurrences ---------------------------------------------------

  /** The occurrence of a day as a value; in a supported zone every day has exactly one. */
  ghost function OccurrenceOn(z: Zone, day: int, slot: Slot): (o: Occurrence)
    requires SupportedZone(z) && ValidSlot(slot)
    ensures IsOccurrence(z, day, slot, o)
  {
    OccurrenceExists(z, day, slot);
    var o :| IsOccurrence(z, day, slot, o);
    o
  }

  lemma OccurrenceExists(z: Zone, day: int, slot: Slot)
    requires SupportedZone(z) && ValidSlot(slot)
    ensures exists o :: IsOccurrence(z, day, slot, o)
  {
    var target := Target(day, slot);
    var i := SlotReached(z, target);
    var wall, shown := LeastWall(z, target, Wall(z, i), i);
    var at := EarliestShowing(z, target, wall, shown);
    assert IsOccurrence(z, day, slot, Occurrence(day, at, wall - target));
  }

  /** The least wall minute at or after `from` that some instant shows, given one that is shown. */
  lemma {:induction false} LeastWall(z: Zone, from: int, wall: int, shownAt: int) returns (least: int, at: int)
    requires from <= wall && Shows(z, shownAt, wall)
    ensures from <= least <= wall && Shows(z, at, least)
    ensures forall i: int, w: int :: Shows(z, i, w) && from <= w ==> least <= w
    decreases wall - from
  {
    if i: int, w: int :| Shows(z, i, w) && from <= w < wall {
      least, at := LeastWall(z, from, w, i);
    } else {
      least, at := wall, shownAt;
    }
  }

  lemma EarliestShowing(z: Zone, target: int, wall: int, shown: int) returns (at: int)
    requires SupportedZone(z) && target <= wall <= target + MAX_SHIFT && Shows(z, shown, wall)
    ensures Shows(z, at, wall) && forall i: int :: Shows(z, i, wall) ==> at <= i
  {
    var early, late := wall - z(target - SAMPLE_REACH), wall - z(target + SAMPLE_REACH);
    forall i: int | Shows(z, i, wall)
      ensures i == early || i == late
    {
      ShownWithSampledOffset(z, target, wall, i);
    }
    at := if Shows(z, early, wall) && (early <= late || !Shows(z, late, wall)) then early else late;
  }

  /** Later days have later occurrences, and a later local date means a later instant. */
  lemma OccurrencesOrdered(z: Zone, slot: Slot, d: int, e: int)
    requires SupportedZone(z) && ValidSlot(slot) && d < e
    ensures OccurrenceOn(z, d, slot).scheduledAt < OccurrenceOn(z, e, slot).scheduledAt
  {
    var p, q := OccurrenceOn(z, d, slot), OccurrenceOn(z, e, slot);
    if q.scheduledAt <= p.scheduledAt {
      LocalDayMonotone(z, q.scheduledAt, p.scheduledAt);
    }
  }

  /** Comparing an occurrence with the local date of now decides most of the order. */
  lemma OccurrenceAgainstToday(z: Zone, slot: Slot, day: int, nowMs: int)
    requires SupportedZone(z) && ValidSlot(slot)
    ensures day > LocalDay(Wall(z, nowMs / MINUTE_MS)) ==> IsLater(OccurrenceOn(z, day, slot).scheduledAt, nowMs)
    ensures day < LocalDay(Wall(z, nowMs / MINUTE_MS)) ==> !IsLater(OccurrenceOn(z, day, slot).scheduledAt, nowMs)
  {
    var at, now := OccurrenceOn(z, day, slot).scheduledAt, nowMs / MINUTE_MS;
    if at <= now {
      LocalDayMonotone(z, at, now);
    } else {
      LocalDayMonotone(z, now, at);
    }
  }

  /** `o` is the last occurrence of the slot that is not after now. */
  ghost predicate IsLatest(z: Zone, nowMs: int, slot: Slot, o: Occurrence)
    requires SupportedZone(z) && ValidSlot(slot)
  {
    && Weekday(o.localDate) == slot.weekday
    && o == OccurrenceOn(z, o.localDate, slot)
    && !IsLater(o.scheduledAt, nowMs)
    && (forall d :: d > o.localDate && Weekday(d) == slot.weekday ==>
          IsLater(OccurrenceOn(z, d, slot).scheduledAt, nowMs))
  }

  /** `o` is the first occurrence of the slot that is strictly after now. */
  ghost predicate IsFirstAfter(z: Zone, nowMs: int, slot: Slot, o: Occurrence)
    requires SupportedZone(z) && ValidSlot(slot)
  {
    && Weekday(o.localDate) == slot.weekday
    && o == OccurrenceOn(z, o.localDate, slot)
    && IsLater(o.scheduledAt, nowMs)
    && (forall d :: d < o.localDate && Weekday(d) == slot.weekday ==>
          !IsLater(OccurrenceOn(z, d, slot).scheduledAt, nowMs))
  }

  lemma SlotDayOfWeek(today: int, weekday: int) returns (day: int)
    requires 1 <= weekday <= 7
    ensures day == today - (Weekday(today) - weekday + 7) % 7
    ensures Weekday(day) == Weekday(day - 7) == Weekday(day + 7) == weekday && day <= today < day + 7
  {
    day := today - (Weekday(today) - weekday + 7) % 7;
  }

  lemma SameWeekday(d: int, e: int)
    requires Weekday(d) == Weekday(e) && d < e
    ensures (e - d) % 7 == 0 && d + 7 <= e && Weekday(d + 7) == Weekday(d)
  {
  }

  lemma LatestBetween(z: Zone, nowMs: int, slot: Slot, day: int)
    requires SupportedZone(z) && ValidSlot(slot) && Weekday(day) == slot.weekday
    requires !IsLater(OccurrenceOn(z, day, slot).scheduledAt, nowMs)
    requires IsLater(OccurrenceOn(z, day + 7, slot).scheduledAt, nowMs)
    ensures IsLatest(z, nowMs, slot, OccurrenceOn(z, day, slot))
    ensures IsFirstAfter(z, nowMs, slot, OccurrenceOn(z, day + 7, slot))
  {
    forall d | d > day && Weekday(d) == slot.weekday
      ensures IsLater(OccurrenceOn(z, d, slot).scheduledAt, nowMs)
    {
      SameWeekday(day, d);
      if d > day + 7 {
        OccurrencesOrdered(z, slot, day + 7, d);
      }
    }
    forall d | d < day + 7 && Weekday(d) == slot.weekday
      ensures !IsLater(OccurrenceOn(z, d, slot).scheduledAt, nowMs)
    {
      if d > day {
        SameWeekday(day, d);
      }
      if d < day {
        OccurrencesOrdered(z, slot, d, day);
      }
    }
  }

  method WeeklyOccurrenceAtOrBefore(z: Zone, nowMs: int, slot: Slot) returns (r: Result<Occurrence, ClockError>)
    ensures !ValidNow(nowMs) || !ValidSlot(slot) ==> r == Failure(TimeInvalid)
    ensures ValidNow(nowMs) && ValidSlot(slot) && SupportedZone(z) ==>
              r.Success? && IsLatest(z, nowMs, slot, r.value)
  {
    if !ValidNow(nowMs) || !ValidSlot(slot) {
      return Failure(TimeInvalid);
    }
    var today := LocalDay(Wall(z, nowMs / MINUTE_MS));
    var day := today - (Weekday(today) - slot.weekday + 7) % 7;
    ghost var slotDay := SlotDayOfWeek(today, slot.weekday);
    r := ResolveOccurrence(z, day, slot);
    if SupportedZone(z) {
      OccurrenceUnique(z, day, slot, r.value, OccurrenceOn(z, day, slot));
      OccurrenceAgainstToday(z, slot, day - 7, nowMs);
      OccurrenceAgainstToday(z, slot, day + 7, nowMs);
    }
    if r.Success? && IsLater(r.value.scheduledAt, nowMs) {
      r := ResolveOccurrence(z, day - 7, slot);
      if SupportedZone(z) {
        OccurrenceUnique(z, day - 7, slot, r.value, OccurrenceOn(z, day - 7, slot));
        LatestBetween(z, nowMs, slot, day - 7);
      }
    } else if SupportedZone(z) {
      LatestBetween(z, nowMs, slot, day);
    }
  }

  method WeeklyOccurrenceAfter(z: Zone, nowMs: int, slot: Slot) returns (r: Result<Occurrence, ClockError>)
    ensures !ValidNow(nowMs) || !ValidSlot(slot) ==> r == Failure(TimeInvalid)
    ensures ValidNow(nowMs) && ValidSlot(slot) && SupportedZone(z) ==>
              (r.Success? ==> IsFirstAfter(z, nowMs, slot, r.value) && ValidDate(r.value.localDate)) &&
              (r.Failure? <==> FirstOccurrencesBegin(z, nowMs, slot)) &&
              (r.Failure? ==> r.error == DateInvalid)
  {
    var previous := WeeklyOccurrenceAtOrBefore(z, nowMs, slot);
    if previous.Failure? {
      return previous;
    }
    var day := previous.value.localDate;
    if SupportedZone(z) {
      LatestIsRecent(z, nowMs, slot, previous.value);
    }
    if !ValidDate(day) {
      return Failure(DateInvalid);
    }
    r := ResolveOccurrence(z, day + 7, slot);
    if SupportedZone(z) {
      OccurrenceUnique(z, day + 7, slot, r.value, OccurrenceOn(z, day + 7, slot));
      LatestBetween(z, nowMs, slot, day);
    }
  }

  /** Now lies before the first occurrence of the slot whose date is in 1900 or later. */
  ghost predicate FirstOccurrencesBegin(z: Zone, nowMs: int, slot: Slot)
    requires SupportedZone(z) && ValidSlot(slot)
  {
    forall d :: d >= FIRST_DAY && Weekday(d) == slot.weekday ==> IsLater(OccurrenceOn(z, d, slot).scheduledAt, nowMs)
  }

  lemma LatestIsRecent(z: Zone, nowMs: int, slot: Slot, o: Occurrence)
    requires SupportedZone(z) && ValidSlot(slot) && ValidNow(nowMs) && IsLatest(z, nowMs, slot, o)
    ensures o.localDate + 7 <= LAST_DAY
    ensures o.localDate < FIRST_DAY <==> FirstOccurrencesBegin(z, nowMs, slot)
  {
    var now := nowMs / MINUTE_MS;
    assert RegularMinute(z, now);
    OccurrenceAgainstToday(z, slot, o.localDate, nowMs);
  }

  // --- Coalescing offline weeks -------------------------------------------------------------

  /** Reference: step week by week from the stored date while the occurrence is due. */
  ghost function DueDates(z: Zone, nowMs: int, slot: Slot, first: int): (due: seq<int>)
    requires SupportedZone(z) && ValidSlot(slot)
    decreases if first <= LocalDay(Wall(z, nowMs / MINUTE_MS)) + 7 then LocalDay(Wall(z, nowMs / MINUTE_MS)) + 8 - first else 0
  {
    OccurrenceAgainstToday(z, slot, first, nowMs);
    if IsLater(OccurrenceOn(z, first, slot).scheduledAt, nowMs) then []
    else [first] + DueDates(z, nowMs, slot, first + 7)
  }

  lemma {:induction false} DueDatesUpTo(z: Zone, nowMs: int, slot: Slot, first: int, latest: int)
    requires SupportedZone(z) && ValidSlot(slot)
    requires Weekday(first) == slot.weekday && Weekday(latest) == slot.weekday && first <= latest
    requires !IsLater(OccurrenceOn(z, latest, slot).scheduledAt, nowMs)
    requires IsLater(OccurrenceOn(z, latest + 7, slot).scheduledAt, nowMs)
    ensures (latest - first) % 7 == 0
    ensures |DueDates(z, nowMs, slot, first)| == (latest - first) / 7 + 1
    ensures DueDates(z, nowMs, slot, first)[(latest - first) / 7] == latest
    decreases latest - first
  {
    if first == latest {
      assert DueDates(z, nowMs, slot, latest + 7) == [];
    } else {
      OccurrencesOrdered(z, slot, first, latest);
      SameWeekday(first, latest);
      DueDatesUpTo(z, nowMs, slot, first + 7, latest);
    }
  }

  /** One coalesced occurrence stands for every date that stepping week by week finds due. */
  ghost predicate CoalescesDue(z: Zone, nowMs: int, slot: Slot, first: int, c: Coalesced)
    requires SupportedZone(z) && ValidSlot(slot)
  {
    var due := DueDates(z, nowMs, slot, first);
    && due != []
    && c.firstDueLocalDate == first
    && c.coalescedWeeks + 1 == |due|
    && c.latest.localDate == due[|due| - 1]
    && IsLatest(z, nowMs, slot, c.latest)
    && c.next.localDate == c.latest.localDate + 7
    && (ValidDate(first) ==> ValidDate(c.next.localDate))
    && IsFirstAfter(z, nowMs, slot, c.next)
  }

  lemma CoalescedFromLatest(z: Zone, nowMs: int, slot: Slot, first: int, latest: Occurrence, next: Occurrence)
    requires SupportedZone(z) && ValidSlot(slot) && ValidNow(nowMs) && Weekday(first) == slot.weekday
    requires !IsLater(OccurrenceOn(z, first, slot).scheduledAt, nowMs)
    requires IsLatest(z, nowMs, slot, latest) && IsOccurrence(z, latest.localDate + 7, slot, next)
    ensures first <= latest.localDate && (latest.localDate - first) % 7 == 0
    ensures CoalescesDue(z, nowMs, slot, first, Coalesced(latest, first, (latest.localDate - first) / 7, next))
  {
    var day := latest.localDate;
    OccurrenceUnique(z, day + 7, slot, next, OccurrenceOn(z, day + 7, slot));
    LatestBetween(z, nowMs, slot, day);
    LatestIsRecent(z, nowMs, slot, latest);
    DueDatesUpTo(z, nowMs, slot, first, day);
  }

  /** `nextLocalDate` is absent when its text is not a calendar date. */
  method CoalesceWeeklyOccurrences(z: Zone, nextLocalDate: Option<int>, nowMs: int, slot: Slot)
    returns (r: Result<Option<Coalesced>, ClockError>)
    ensures !ValidNow(nowMs) || !ValidSlot(slot) ==> r == Failure(TimeInvalid)
    ensures ValidNow(nowMs) && ValidSlot(slot) && !IsSlotDate(nextLocalDate, slot) ==> r == Failure(DateInvalid)
    ensures ValidNow(nowMs) && ValidSlot(slot) && SupportedZone(z) && IsSlotDate(nextLocalDate, slot) ==>
              && r.Success?
              && (r.value.None? <==> DueDates(z, nowMs, slot, nextLocalDate.value) == [])
              && (r.value.Some? ==> CoalescesDue(z, nowMs, slot, nextLocalDate.value, r.value.value))
  {
    if !ValidNow(nowMs) || !ValidSlot(slot) {
      return Failure(TimeInvalid);
    }
    if !IsSlotDate(nextLocalDate, slot) {
      return Failure(DateInvalid);
    }
    var first := nextLocalDate.value;
    var due := ResolveOccurrence(z, first, slot);
    if due.Failure? {
      return Failure(due.error);
    }
    if SupportedZone(z) {
      OccurrenceUnique(z, first, slot, due.value, OccurrenceOn(z, first, slot));
    }
    if IsLater(due.value.scheduledAt, nowMs) {
      return Success(None);
    }
    var latest := WeeklyOccurrenceAtOrBefore(z, nowMs, slot);
    if latest.Failure? {
      return Failure(latest.error);
    }
    var day := latest.value.localDate;
    if SupportedZone(z) {
      LatestIsRecent(z, nowMs, slot, latest.value);
      CoalescedFromLatest(z, nowMs, slot, first, latest.value, OccurrenceOn(z, day + 7, slot));
    }
    if !ValidDate(day) || (day - first) % 7 != 0 || day < first {
      return Failure(DateInvalid);
    }
    var next := ResolveOccurrence(z, day + 7, slot);
    if next.Failure? {
      return Failure(next.error);
    }
    if SupportedZone(z) {
      CoalescedFromLatest(z, nowMs, slot, first, latest.value, next.value);
    }
    return Success(Some(Coalesced(latest.value, first, (day - first) / 7, next.value)));
  }

  predicate IsSlotDate(date: Option<int>, slot: Slot) {
    date.Some? && ValidDate(date.value) && Weekday(date.value) == slot.weekday
  }

  // --- A zone with a gap is supported -------------------------------------------------------

  /** The start of daylight saving on 2018-11-04: at 03:00 UTC the clocks jump from 00:00 to 01:00. */
  function NovemberGap(m: int): int {
    if m < 17839 * DAY_MINUTES + 180 then -180 else -120
  }

  lemma SkippedMinuteIsShifted()
    ensures SupportedZone(NovemberGap)
    ensures OccurrenceOn(NovemberGap, 17839, Slot(7, 0, 0)) == Occurrence(17839, 17839 * DAY_MINUTES + 180, 60)
  {
    var z := NovemberGap;
    var jump := 17839 * DAY_MINUTES + 180;
    forall m: int
      ensures RegularMinute(z, m)
    {
      assert LocalDay(17839 * DAY_MINUTES) == LocalDay(17839 * DAY_MINUTES + 60) == 17839;
    }
    assert forall m: int :: IsTransition(z, m) ==> m == jump;
    var o := Occurrence(17839, jump, 60);
    assert IsOccurrence(z, 17839, Slot(7, 0, 0), o);
    OccurrenceUnique(z, 17839, Slot(7, 0, 0), o, OccurrenceOn(z, 17839, Slot(7, 0, 0)));
  }
}
