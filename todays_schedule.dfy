/**
 * Today's adherence view (components/TodaysSchedule.tsx): one row per
 * medication, in collection order, with the number of doses recorded today
 * and whether the daily target is met. "Today" is the local calendar day of
 * the reference instant `now`, given by the calendar parameter `dayOf`.
 */
module Schedule {
  import opened Types

  /** `isToday`: the instant falls on the same local day, month and year as `now`. */
  predicate IsToday(dayOf: nat -> int, t: nat, now: nat) {
    dayOf(t) == dayOf(now)
  }

  /** The filter condition of `timesTakenToday`. */
  predicate TakenToday(e: HistoryEntry, medicationId: string, dayOf: nat -> int, now: nat) {
    e.medicationId == medicationId && IsToday(dayOf, e.timestamp, now)
  }

  /** `history.filter(h => h.medicationId === id && isToday(h.timestamp)).length`. */
  function TimesTakenToday(history: seq<HistoryEntry>, medicationId: string, dayOf: nat -> int, now: nat): (n: nat)
    ensures n <= |history|
    decreases |history|
  {
    if history == [] then 0
    else
      TimesTakenToday(history[..|history| - 1], medicationId, dayOf, now)
        + (if TakenToday(history[|history| - 1], medicationId, dayOf, now) then 1 else 0)
  }

  /** The positions in `history` of the doses of `medicationId` taken today. */
  ghost function TodayPositions(history: seq<HistoryEntry>, medicationId: string, dayOf: nat -> int, now: nat): set<int> {
    set i | 0 <= i < |history| && TakenToday(history[i], medicationId, dayOf, now)
  }

  /** The count is exactly the number of history entries for the medication that fall today. */
  lemma {:induction false} TimesTakenTodayCountsEntries(history: seq<HistoryEntry>, medicationId: string, dayOf: nat -> int, now: nat)
    ensures TimesTakenToday(history, medicationId, dayOf, now) == |TodayPositions(history, medicationId, dayOf, now)|
    decreases |history|
  {
    if history != [] {
      var n := |history| - 1;
      var init := history[..n];
      TimesTakenTodayCountsEntries(init, medicationId, dayOf, now);
      var before := TodayPositions(init, medicationId, dayOf, now);
      var after := TodayPositions(history, medicationId, dayOf, now);
      assert n !in before;
      if TakenToday(history[n], medicationId, dayOf, now) {
        assert after == before + {n};
      } else {
        assert after == before;
      }
    }
  }

  /** `isCompleted`: today's count has reached the daily target. */
  predicate IsCompleted(med: Medication, history: seq<HistoryEntry>, dayOf: nat -> int, now: nat) {
    TimesTakenToday(history, med.id, dayOf, now) >= med.timesPerDay
  }

  /** What one row of the schedule shows. */
  datatype ScheduleRow = ScheduleRow(medication: Medication, takenToday: nat, completed: bool, offersTake: bool)

  /** The empty state, or one row per medication. */
  datatype ScheduleView = NoMedications | Rows(rows: seq<ScheduleRow>)

  function RowFor(med: Medication, history: seq<HistoryEntry>, dayOf: nat -> int, now: nat): ScheduleRow {
    var taken := TimesTakenToday(history, med.id, dayOf, now);
    var done := IsCompleted(med, history, dayOf, now);
    ScheduleRow(med, taken, done, !done)
  }

  /** The TodaysSchedule component. */
  function TodaysSchedule(meds: seq<Medication>, history: seq<HistoryEntry>, dayOf: nat -> int, now: nat): (v: ScheduleView)
    ensures v.NoMedications? <==> meds == []
    ensures v.Rows? ==> |v.rows| == |meds|
    ensures v.Rows? ==> forall i :: 0 <= i < |meds| ==>
      && v.rows[i].medication == meds[i]
      && v.rows[i].takenToday == |TodayPositions(history, meds[i].id, dayOf, now)|
      && (v.rows[i].completed <==> v.rows[i].takenToday >= meds[i].timesPerDay)
      && (v.rows[i].offersTake <==> !v.rows[i].completed)
  {
    if meds == [] then NoMedications
    else
      var rows := seq(|meds|, i requires 0 <= i < |meds| => RowFor(meds[i], history, dayOf, now));
      assert forall i :: 0 <= i < |meds| ==> rows[i] == RowFor(meds[i], history, dayOf, now);
      forall i | 0 <= i < |meds| ensures rows[i].takenToday == |TodayPositions(history, meds[i].id, dayOf, now)| {
        TimesTakenTodayCountsEntries(history, meds[i].id, dayOf, now);
      }
      Rows(rows)
  }

  /**
   * Recording one dose changes today's counts exactly where it should: by one
   * for its own medication when it falls today, and nowhere else.
   */
  lemma AppendedEntryCount(history: seq<HistoryEntry>, e: HistoryEntry, medicationId: string, dayOf: nat -> int, now: nat)
    ensures e.medicationId == medicationId && IsToday(dayOf, e.timestamp, now) ==>
      TimesTakenToday(history + [e], medicationId, dayOf, now) == TimesTakenToday(history, medicationId, dayOf, now) + 1
    ensures e.medicationId != medicationId ==>
      TimesTakenToday(history + [e], medicationId, dayOf, now) == TimesTakenToday(history, medicationId, dayOf, now)
    ensures !IsToday(dayOf, e.timestamp, now) ==>
      TimesTakenToday(history + [e], medicationId, dayOf, now) == TimesTakenToday(history, medicationId, dayOf, now)
  {
    assert (history + [e])[..|history|] == history;
  }

  /** Once completed, a medication stays completed whatever is recorded next. */
  lemma CompletedStaysCompleted(med: Medication, history: seq<HistoryEntry>, e: HistoryEntry, dayOf: nat -> int, now: nat)
    requires IsCompleted(med, history, dayOf, now)
    ensures IsCompleted(med, history + [e], dayOf, now)
  {
    AppendedEntryCount(history, e, med.id, dayOf, now);
  }

  /** Under a monotone calendar the instants of today form an interval. */
  lemma TodayIsAnInterval(dayOf: nat -> int, now: nat, early: nat, t: nat, late: nat)
    requires Monotone(dayOf)
    requires early <= t <= late
    requires IsToday(dayOf, early, now) && IsToday(dayOf, late, now)
    ensures IsToday(dayOf, t, now)
  {
    assert dayOf(early) <= dayOf(t) <= dayOf(late);
  }

  /**
   * Two doses per day; three doses recorded today. After one dose the Take
   * action is offered; after two the row is completed and offers no Take,
   * so the schedule itself cannot record a third. A third same-day entry
   * that arrives some other way (stored data, another caller of
   * `handleTakeMedication`) is counted as well: the row shows 3 of 2.
   */
  lemma ThreeDosesOfTwo(dayOf: nat -> int, now: nat, t1: nat, t2: nat, t3: nat)
    requires IsToday(dayOf, t1, now) && IsToday(dayOf, t2, now) && IsToday(dayOf, t3, now)
    ensures var med := Medication("m", "Ibuprofen", "200mg", 2, None);
      var h1 := [HistoryEntry("e1", "m", t1)];
      var h2 := h1 + [HistoryEntry("e2", "m", t2)];
      var h3 := h2 + [HistoryEntry("e3", "m", t3)];
      && RowFor(med, h1, dayOf, now) == ScheduleRow(med, 1, false, true)
      && RowFor(med, h2, dayOf, now) == ScheduleRow(med, 2, true, false)
      && RowFor(med, h3, dayOf, now) == ScheduleRow(med, 3, true, false)
      && |h3| == 3
  {
    var h1 := [HistoryEntry("e1", "m", t1)];
    var h2 := h1 + [HistoryEntry("e2", "m", t2)];
    var h3 := h2 + [HistoryEntry("e3", "m", t3)];
    AppendedEntryCount([], HistoryEntry("e1", "m", t1), "m", dayOf, now);
    assert [] + [HistoryEntry("e1", "m", t1)] == h1;
    AppendedEntryCount(h1, HistoryEntry("e2", "m", t2), "m", dayOf, now);
    AppendedEntryCount(h2, HistoryEntry("e3", "m", t3), "m", dayOf, now);
  }
}
