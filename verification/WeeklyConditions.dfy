/** When the weekly occurrences fall and what they look back on, in hours, minutes and weeks. */
module WeeklyConditions {
  import opened Wrappers
  import opened WeeklyClock
  import opened WeeklySchedule

  /** At the instant the clock on the wall shows that day and time. */
  ghost predicate ShowsTime(z: Zone, instant: int, day: int, hour: int, minute: int) {
    var wall := instant + z(instant);
    wall / 1440 == day && wall % 1440 / 60 == hour && wall % 60 == minute
  }

  lemma ShowsTimeIff(z: Zone, instant: int, day: int, slot: Slot)
    requires ValidSlot(slot)
    ensures ShowsTime(z, instant, day, slot.hour, slot.minute) <==> Shows(z, instant, Target(day, slot))
  {
    var wall := instant + z(instant);
    assert wall == wall / 1440 * 1440 + wall % 1440;
    assert wall % 1440 == wall % 1440 / 60 * 60 + wall % 1440 % 60;
    MinuteOfDay(wall);
    SlotOfDay(day, slot);
  }

  lemma MinuteOfDay(wall: int)
    ensures wall % 1440 % 60 == wall % 60
  {
    assert wall == 60 * (24 * (wall / 1440)) + wall % 1440;
  }

  lemma SlotOfDay(day: int, slot: Slot)
    requires ValidSlot(slot)
    ensures Target(day, slot) / 1440 == day && Target(day, slot) % 1440 == slot.hour * 60 + slot.minute
    ensures Target(day, slot) % 1440 / 60 == slot.hour && Target(day, slot) % 60 == slot.minute
  {
    MinuteOfDay(Target(day, slot));
  }

  /** The occurrence of a day is at the earliest instant whose clock shows the slot's hour and minute on that
      day; if none does, because the clocks skip it, it is at the first minute shown after it, still on
      that day. */
  lemma OccurrenceShowsSlot(z: Zone, day: int, slot: Slot)
    requires SupportedZone(z) && ValidSlot(slot)
    ensures var o := OccurrenceOn(z, day, slot);
            && o.localDate == day && (o.scheduledAt + z(o.scheduledAt)) / 1440 == day
            && (o.scheduledAt + z(o.scheduledAt)) % 1440 == slot.hour * 60 + slot.minute + o.shiftedMinutes
            && (o.shiftedMinutes == 0 <==> exists i :: ShowsTime(z, i, day, slot.hour, slot.minute))
            && (forall i :: ShowsTime(z, i, day, slot.hour, slot.minute) ==> o.scheduledAt <= i)
            && (forall i :: (i + z(i)) / 1440 == day && (i + z(i)) % 1440 >= slot.hour * 60 + slot.minute ==>
                  (i + z(i)) % 1440 >= slot.hour * 60 + slot.minute + o.shiftedMinutes)
  {
    var o := OccurrenceOn(z, day, slot);
    var target := Target(day, slot);
    SlotOfDay(day, slot);
    forall i
      ensures ShowsTime(z, i, day, slot.hour, slot.minute) <==> Shows(z, i, target)
    {
      ShowsTimeIff(z, i, day, slot);
    }
    forall i | (i + z(i)) / 1440 == day && (i + z(i)) % 1440 >= slot.hour * 60 + slot.minute
      ensures (i + z(i)) % 1440 >= slot.hour * 60 + slot.minute + o.shiftedMinutes
    {
      assert i + z(i) == day * 1440 + (i + z(i)) % 1440;
      assert Shows(z, i, i + z(i));
    }
    var wall := o.scheduledAt + z(o.scheduledAt);
    assert wall == wall / 1440 * 1440 + wall % 1440;
    if o.shiftedMinutes == 0 {
      assert Shows(z, o.scheduledAt, target);
    }
  }

  /** An occurrence is historical exactly when one of its weeks, counted from the Monday of 1970-01-05, is a
      multiple of the period; the others look back from their date over the recent days. */
  lemma OccurrenceLooksBack(run: Run)
    requires WellFormed(run)
    ensures run.historical <==>
            exists w :: (run.firstDueLocalDate - 4) / 7 <= w <= (run.localDate - 4) / 7 && w % run.options.historicalEveryWeeks == 0
    ensures run.from == if run.historical then None else Some(run.localDate - run.options.recentDays)
    ensures run.localDate == run.firstDueLocalDate + 7 * run.coalescedWeeks
  {
    hide IsHistorical;
    HistoricalHoldsMultiple(run.firstDueLocalDate, run.localDate, run.options.historicalEveryWeeks);
  }

  /** The latest occurrence is at or before now, to the millisecond, and all later ones after it; the first
      one after is later than now, and all earlier ones are not. */
  lemma AroundNow(z: Zone, nowMs: int, slot: Slot, o: Occurrence, day: int)
    requires SupportedZone(z) && ValidSlot(slot) && Weekday(day) == slot.weekday
    ensures IsLatest(z, nowMs, slot, o) ==>
              && o.scheduledAt * 60 * 1000 <= nowMs
              && (day > o.localDate ==> OccurrenceOn(z, day, slot).scheduledAt * 60 * 1000 > nowMs)
    ensures IsFirstAfter(z, nowMs, slot, o) ==>
              && o.scheduledAt * 60 * 1000 > nowMs
              && (day < o.localDate ==> OccurrenceOn(z, day, slot).scheduledAt * 60 * 1000 <= nowMs)
  {
  }

  /** The due dates are the stored one and every seventh day after it whose occurrence is at or before now. */
  lemma {:induction false} DueIff(z: Zone, nowMs: int, slot: Slot, first: int, k: nat)
    requires SupportedZone(z) && ValidSlot(slot)
    ensures k < |DueDates(z, nowMs, slot, first)| <==> OccurrenceOn(z, first + 7 * k, slot).scheduledAt * 60 * 1000 <= nowMs
    ensures k < |DueDates(z, nowMs, slot, first)| ==> DueDates(z, nowMs, slot, first)[k] == first + 7 * k
    decreases k
  {
    if k > 0 {
      DueIff(z, nowMs, slot, first + 7, k - 1);
      OccurrencesOrdered(z, slot, first, first + 7 * k);
    }
  }
}
