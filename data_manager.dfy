/** DataManager.swift: today's running total, the daily goal, the instant of the last
    reset and the history of daily records, with the operations that change them and
    the three statistics read from the history. Wall-clock reads (`Date()`) are the
    parameter `now`; persistence to the key/value store is not part of this model. */
module DataManagement {
  import opened Calendar
  import opened Collections
  import opened Optional
  import opened DailyHistory

  /** Goal used when the store holds no goal (it reads back as 0). */
  const DefaultDailyGoal := 2250

  class DataManager {
    var todayIntake: int
    var dailyGoal: int
    var lastResetDate: int
    var dailyHistory: seq<DailyRecord>

    /** `init()`: take the stored values (a missing integer reads as 0, a missing or
        undecodable history as none), replace a zero goal by the default, then run the
        new-day check. */
    constructor (storedIntake: int, storedGoal: int, storedResetDate: Option<int>,
                 storedHistory: Option<seq<DailyRecord>>, now: int)
      ensures dailyGoal == if storedGoal == 0 then DefaultDailyGoal else storedGoal
      ensures var loadedReset := if storedResetDate.Some? then storedResetDate.value else now;
        var loadedHistory := if storedHistory.Some? then storedHistory.value else [];
        if SameDay(loadedReset, now) then
          todayIntake == storedIntake && lastResetDate == loadedReset && dailyHistory == loadedHistory
        else
          && todayIntake == 0 && lastResetDate == now
          && dailyHistory == SavedHistory(loadedHistory, DailyRecord(StartOfDay(loadedReset), storedIntake, dailyGoal))
      ensures SameDay(lastResetDate, now)
    {
      todayIntake := storedIntake;
      lastResetDate := if storedResetDate.Some? then storedResetDate.value else now;
      dailyGoal := if storedGoal == 0 then DefaultDailyGoal else storedGoal;
      dailyHistory := if storedHistory.Some? then storedHistory.value else [];
      new;
      CheckForNewDay(now);
    }

    /** Adds `amount` to today's total and writes today's record. */
    method LogWater(amount: int, now: int)
      modifies this
      ensures todayIntake == old(todayIntake) + amount
      ensures dailyGoal == old(dailyGoal) && lastResetDate == old(lastResetDate)
      ensures var today := StartOfDay(now);
        var rec := DailyRecord(today, todayIntake, dailyGoal);
        match FirstIndexOnDay(old(dailyHistory), today)
        case Some(i) => dailyHistory == old(dailyHistory)[i := rec]
        case None => dailyHistory == old(dailyHistory) + [rec]
      ensures var today := StartOfDay(now);
        var idx := FirstIndexOnDay(dailyHistory, today);
        idx.Some? && dailyHistory[idx.value] == DailyRecord(today, todayIntake, dailyGoal)
      ensures forall i :: 0 <= i < |old(dailyHistory)| && !SameDay(old(dailyHistory)[i].date, now) ==>
        dailyHistory[i] == old(dailyHistory)[i]
      ensures old(DistinctDays(dailyHistory)) ==> DistinctDays(dailyHistory)
    {
      todayIntake := todayIntake + amount;
      UpdateTodayRecord(now);
    }

    /** Stores the finishing day's record, then starts a new day at `now` with a zero total. */
    method ResetDailyProgress(now: int)
      modifies this
      ensures dailyHistory == SavedHistory(old(dailyHistory),
        DailyRecord(StartOfDay(old(lastResetDate)), old(todayIntake), old(dailyGoal)))
      ensures todayIntake == 0 && lastResetDate == now && dailyGoal == old(dailyGoal)
    {
      ghost var finished := DailyRecord(StartOfDay(lastResetDate), todayIntake, dailyGoal);
      ghost var before := dailyHistory;
      SaveDailyRecord();
      assert dailyHistory == SavedHistory(before, finished);
      todayIntake := 0;
      lastResetDate := now;
    }

    /** Sets the goal as given; nothing checks that it is positive. */
    method UpdateDailyGoal(newGoal: int)
      modifies this
      ensures dailyGoal == newGoal
      ensures todayIntake == old(todayIntake) && lastResetDate == old(lastResetDate)
      ensures dailyHistory == old(dailyHistory)
    {
      dailyGoal := newGoal;
    }

    /** Resets when the last reset was on another day. Afterwards the last reset is on
        `now`'s day, so a second call on that day changes nothing. */
    method CheckForNewDay(now: int)
      modifies this
      ensures SameDay(old(lastResetDate), now) ==> unchanged(this)
      ensures !SameDay(old(lastResetDate), now) ==>
        && dailyHistory == SavedHistory(old(dailyHistory),
             DailyRecord(StartOfDay(old(lastResetDate)), old(todayIntake), old(dailyGoal)))
        && todayIntake == 0 && lastResetDate == now && dailyGoal == old(dailyGoal)
      ensures SameDay(lastResetDate, now)
    {
      if !SameDay(lastResetDate, now) {
        ResetDailyProgress(now);
      }
    }

    /** Stores today's total under the day of the last reset: drops that day's records,
        appends the new one, sorts newest first and keeps the 30 newest. */
    method SaveDailyRecord()
      modifies this`dailyHistory
      ensures dailyHistory == SavedHistory(old(dailyHistory), DailyRecord(StartOfDay(lastResetDate), todayIntake, dailyGoal))
      ensures |dailyHistory| <= HistoryCapacity
      ensures old(DistinctDays(dailyHistory)) ==> DistinctDays(dailyHistory)
    {
      var today := StartOfDay(lastResetDate);
      var record := DailyRecord(today, todayIntake, dailyGoal);
      ghost var before := dailyHistory;
      SavedHistoryShape(before, record);
      if DistinctDays(before) {
        SavedHistoryDistinctDays(before, record);
      }
      dailyHistory := RemoveDay(dailyHistory, today);
      dailyHistory := dailyHistory + [record];
      assert dailyHistory == Merged(before, record);
      var sorted := MostRecentFirst(dailyHistory);
      dailyHistory := sorted[..Min(HistoryCapacity, |sorted|)];
      assert dailyHistory == SavedHistory(before, record);
    }

    /** Replaces the first record on `now`'s day by one holding today's total and goal,
        or appends such a record when there is none. */
    method UpdateTodayRecord(now: int)
      modifies this`dailyHistory
      ensures var today := StartOfDay(now);
        var rec := DailyRecord(today, todayIntake, dailyGoal);
        match FirstIndexOnDay(old(dailyHistory), today)
        case Some(i) => dailyHistory == old(dailyHistory)[i := rec]
        case None => dailyHistory == old(dailyHistory) + [rec]
      ensures var today := StartOfDay(now);
        var idx := FirstIndexOnDay(dailyHistory, today);
        idx.Some? && dailyHistory[idx.value] == DailyRecord(today, todayIntake, dailyGoal)
      ensures forall i :: 0 <= i < |old(dailyHistory)| && !SameDay(old(dailyHistory)[i].date, now) ==>
        dailyHistory[i] == old(dailyHistory)[i]
      ensures old(DistinctDays(dailyHistory)) ==> DistinctDays(dailyHistory)
    {
      var today := StartOfDay(now);
      var record := DailyRecord(today, todayIntake, dailyGoal);
      StartOfDayIsOnSameDay(now);
      var found := FirstIndexOnDay(dailyHistory, today);
      assert SameDay(record.date, today);
      ghost var at: nat;
      if found.Some? {
        at := found.value;
        dailyHistory := dailyHistory[found.value := record];
      } else {
        at := |dailyHistory|;
        dailyHistory := dailyHistory + [record];
      }
      assert forall j :: 0 <= j < at ==> dailyHistory[j] == old(dailyHistory)[j];
      assert dailyHistory[at] == record;
      assert FirstIndexOnDay(dailyHistory, today) == Some(at);
    }

    /** Mean total of the records dated within the last seven days; 0 when there are none. */
    function GetWeeklyAverage(now: int): (avg: real)
      reads this
      ensures (forall r :: r in dailyHistory ==> r.date < now - WeekSeconds) ==> avg == 0.0
      ensures (exists r :: r in dailyHistory && r.date >= now - WeekSeconds) ==>
        && (exists lo :: lo in dailyHistory && lo.date >= now - WeekSeconds && lo.totalIntake as real <= avg)
        && (exists hi :: hi in dailyHistory && hi.date >= now - WeekSeconds && avg <= hi.totalIntake as real)
      ensures var w := RecordsSince(dailyHistory, now - WeekSeconds);
        |w| > 0 ==> avg == Mean(Totals(w))
    {
      var cutoff := now - WeekSeconds;
      var w := RecordsSince(dailyHistory, cutoff);
      if |w| == 0 then
        assert forall r :: r in dailyHistory ==> r.date < cutoff;
        0.0
      else
        var totals := Totals(w);
        RecordsSinceMeanBounds(dailyHistory, cutoff);
        Mean(totals)
    }

    /** Number of leading completed records, newest first; dates are not checked for gaps. */
    method GetStreakDays() returns (streak: nat)
      ensures streak <= |dailyHistory|
      ensures forall i :: 0 <= i < streak ==> MostRecentFirst(dailyHistory)[i].IsCompleted()
      ensures streak < |dailyHistory| ==> !MostRecentFirst(dailyHistory)[streak].IsCompleted()
    {
      var sortedRecords := MostRecentFirst(dailyHistory);
      assert |sortedRecords| == |dailyHistory| by {
        assert |multiset(sortedRecords)| == |multiset(dailyHistory)|;
      }
      streak := 0;
      for i := 0 to |sortedRecords|
        invariant streak == i
        invariant forall j :: 0 <= j < i ==> sortedRecords[j].IsCompleted()
      {
        if sortedRecords[i].IsCompleted() {
          streak := streak + 1;
        } else {
          break;
        }
      }
    }

    /** The first record with the largest total, or none for an empty history. */
    function GetBestDay(): (best: Option<DailyRecord>)
      reads this
      ensures best.None? <==> dailyHistory == []
      ensures best.Some? ==>
        && best.value in dailyHistory
        && (forall r :: r in dailyHistory ==> r.totalIntake <= best.value.totalIntake)
      ensures best.Some? ==>
        exists k :: && 0 <= k < |dailyHistory| && dailyHistory[k] == best.value
                    && (forall j :: 0 <= j < k ==> dailyHistory[j].totalIntake < best.value.totalIntake)
    {
      if dailyHistory == [] then None else Some(dailyHistory[BestIndex(dailyHistory)])
    }
  }
}
