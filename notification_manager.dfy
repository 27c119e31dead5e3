/** NotificationManager.swift: the drinking-session log, the learned reminder profile and
    the reminder schedule handed to the system notification centre. Wall-clock reads are
    the parameter `now`, the random minute is a nondeterministic choice, and persistence
    and notification texts are not part of this model. */
module Notifications {
  import opened Collections
  import opened Decimal
  import opened Optional
  import opened PatternLearning

  const DailyCheckId := "daily-completion-check"
  const AdaptiveIdPrefix := "adaptive-reminder-"
  /** The end-of-day check fires at 20:00. */
  const DailyCheckHour := 20
  /** Largest random minute of an adaptive reminder (`Int.random(in: 0...30)`). */
  const MaxReminderMinute := 30
  /** Reminder hours before anything is learned or stored. */
  const DefaultReminderTimes := [9, 13, 17]
  /** Mean gap, in seconds, used when the store holds none (it reads back as 0). */
  const DefaultAverageGap := 10800.0

  /** A repeating calendar trigger on an hour and minute of the day. */
  datatype CalendarTrigger = CalendarTrigger(hour: int, minute: int, repeats: bool)

  /** Identifier of the adaptive reminder for `hour`: `"adaptive-reminder-\(hour)"`. */
  function AdaptiveId(hour: int): string {
    AdaptiveIdPrefix + IntToString(hour)
  }

  /** Two hours share an adaptive identifier exactly when they are the same hour, so
      re-adding an hour replaces its reminder and different hours never collide. */
  lemma AdaptiveIdInjective(a: int, b: int)
    ensures AdaptiveId(a) == AdaptiveId(b) <==> a == b
  {
    if AdaptiveId(a) == AdaptiveId(b) {
      var n := |AdaptiveIdPrefix|;
      assert AdaptiveId(a)[n..] == IntToString(a);
      assert AdaptiveId(b)[n..] == IntToString(b);
      IntToStringInjective(a, b);
    }
  }

  /** No adaptive identifier is the end-of-day check's identifier. */
  lemma AdaptiveIdIsNotDailyCheck(hour: int)
    ensures AdaptiveId(hour) != DailyCheckId
  {
    assert AdaptiveId(hour)[0] == 'a' && DailyCheckId[0] == 'd';
  }

  /** Identifiers of the adaptive reminders for `times`. */
  function AdaptiveIds(times: seq<int>): set<string> {
    set h | h in times :: AdaptiveId(h)
  }

  /** `pending` holds, for `hour`, a repeating reminder at that hour and a minute in 0...30. */
  ghost predicate HasAdaptiveReminder(pending: map<string, CalendarTrigger>, hour: int) {
    && AdaptiveId(hour) in pending
    && pending[AdaptiveId(hour)].hour == hour
    && 0 <= pending[AdaptiveId(hour)].minute <= MaxReminderMinute
    && pending[AdaptiveId(hour)].repeats
  }

  /** The pending requests a reschedule leaves: the 20:00 check and one reminder per
      learned hour, nothing else. */
  ghost predicate IsFullSchedule(pending: map<string, CalendarTrigger>, times: seq<int>) {
    && pending.Keys == {DailyCheckId} + AdaptiveIds(times)
    && pending[DailyCheckId] == CalendarTrigger(DailyCheckHour, 0, true)
    && forall h :: h in times ==> HasAdaptiveReminder(pending, h)
  }

  /** `pending` is `orig` with the adaptive reminders for the hours `done` added. */
  ghost predicate AddedReminders(pending: map<string, CalendarTrigger>, orig: map<string, CalendarTrigger>,
                                 done: seq<int>) {
    && pending.Keys == orig.Keys + AdaptiveIds(done)
    && (forall id :: id in orig && id !in AdaptiveIds(done) ==> pending[id] == orig[id])
    && (forall h :: h in done ==> HasAdaptiveReminder(pending, h))
  }

  /** Adding the reminder for one more hour keeps every earlier hour's reminder. */
  lemma AddReminderKeepsSchedule(orig: map<string, CalendarTrigger>, prev: map<string, CalendarTrigger>,
                                 next: map<string, CalendarTrigger>, done: seq<int>, hour: int, minute: int)
    requires 0 <= minute <= MaxReminderMinute
    requires AddedReminders(prev, orig, done)
    requires next == prev[AdaptiveId(hour) := CalendarTrigger(hour, minute, true)]
    ensures AddedReminders(next, orig, done + [hour])
  {
    var added, extended := AdaptiveId(hour), done + [hour];
    assert AdaptiveIds(extended) == AdaptiveIds(done) + {added};
    assert next.Keys == orig.Keys + AdaptiveIds(extended);
    assert forall id :: id in orig && id !in AdaptiveIds(extended) ==> next[id] == orig[id];
    forall h | h in extended ensures HasAdaptiveReminder(next, h) {
      if h != hour {
        assert h in done;
        OtherReminderKept(prev, next, h, hour, minute);
      }
    }
  }

  /** Adding the reminder for `hour` leaves the reminder of every other hour as it was. */
  lemma OtherReminderKept(prev: map<string, CalendarTrigger>, next: map<string, CalendarTrigger>,
                          h: int, hour: int, minute: int)
    requires next == prev[AdaptiveId(hour) := CalendarTrigger(hour, minute, true)]
    requires HasAdaptiveReminder(prev, h) && h != hour
    ensures HasAdaptiveReminder(next, h)
  {
    AdaptiveIdInjective(h, hour);
  }

  /** The system notification centre, reduced to its pending requests by identifier;
      adding a request under an existing identifier replaces it. */
  class NotificationCenter {
    var pending: map<string, CalendarTrigger>

    constructor ()
      ensures pending == map[]
    {
      pending := map[];
    }

    method RemoveAllPendingNotificationRequests()
      modifies this
      ensures pending == map[]
    {
      pending := map[];
    }

    method Add(identifier: string, trigger: CalendarTrigger)
      modifies this
      ensures pending == old(pending)[identifier := trigger]
    {
      pending := pending[identifier := trigger];
    }
  }

  class NotificationManager {
    var hasPermission: bool
    var userDrinkingPattern: seq<DrinkingSession>
    var optimalReminderTimes: seq<int>
    var lastWaterLogTime: int
    var averageGapBetweenDrinks: real
    const center: NotificationCenter

    /** `init()`: no permission until the centre answers, the stored log, hours and gap
        (a missing gap reads as 0 and is replaced by three hours), and the construction
        instant as the time of the last drink. */
    constructor (center: NotificationCenter, storedPattern: Option<seq<DrinkingSession>>,
                 storedTimes: Option<seq<int>>, storedGap: real, now: int)
      ensures this.center == center
      ensures !hasPermission
      ensures userDrinkingPattern == if storedPattern.Some? then storedPattern.value else []
      ensures optimalReminderTimes == if storedTimes.Some? then storedTimes.value else DefaultReminderTimes
      ensures averageGapBetweenDrinks == if storedGap == 0.0 then DefaultAverageGap else storedGap
      ensures lastWaterLogTime == now
    {
      this.center := center;
      hasPermission := false;
      userDrinkingPattern := if storedPattern.Some? then storedPattern.value else [];
      optimalReminderTimes := if storedTimes.Some? then storedTimes.value else DefaultReminderTimes;
      averageGapBetweenDrinks := if storedGap == 0.0 then DefaultAverageGap else storedGap;
      lastWaterLogTime := now;
    }

    /** The answer to the permission request: record it and, when granted, schedule. */
    method OnAuthorizationResponse(granted: bool)
      modifies this, center
      ensures hasPermission == granted
      ensures userDrinkingPattern == old(userDrinkingPattern) && optimalReminderTimes == old(optimalReminderTimes)
      ensures lastWaterLogTime == old(lastWaterLogTime) && averageGapBetweenDrinks == old(averageGapBetweenDrinks)
      ensures granted ==> IsFullSchedule(center.pending, optimalReminderTimes)
      ensures !granted ==> center.pending == old(center.pending)
    {
      hasPermission := granted;
      if granted {
        ScheduleWaterReminders();
      }
    }

    /** The answer to the settings query made at start-up: permission is "authorized". */
    method OnNotificationSettings(authorized: bool)
      modifies this
      ensures hasPermission == authorized
      ensures userDrinkingPattern == old(userDrinkingPattern) && optimalReminderTimes == old(optimalReminderTimes)
      ensures lastWaterLogTime == old(lastWaterLogTime) && averageGapBetweenDrinks == old(averageGapBetweenDrinks)
    {
      hasPermission := authorized;
    }

    /** Replaces every pending request by the 20:00 check and the adaptive reminders. */
    method ScheduleWaterReminders()
      modifies center
      ensures IsFullSchedule(center.pending, optimalReminderTimes)
    {
      center.RemoveAllPendingNotificationRequests();
      ScheduleDailyCompletionCheck();
      ScheduleAdaptiveReminders();
      AdaptiveIdIsNotDailyCheck(0);
      assert DailyCheckId !in AdaptiveIds(optimalReminderTimes) by {
        forall h | h in optimalReminderTimes ensures AdaptiveId(h) != DailyCheckId {
          AdaptiveIdIsNotDailyCheck(h);
        }
      }
    }

    /** Adds the repeating 20:00 check. */
    method ScheduleDailyCompletionCheck()
      modifies center
      ensures center.pending == old(center.pending)[DailyCheckId := CalendarTrigger(DailyCheckHour, 0, true)]
    {
      center.Add(DailyCheckId, CalendarTrigger(DailyCheckHour, 0, true));
    }

    /** Adds, for each learned hour in turn, a repeating reminder at that hour and a
        random minute in 0...30; a repeated hour replaces its earlier reminder. */
    method ScheduleAdaptiveReminders()
      modifies center
      ensures center.pending.Keys == old(center.pending).Keys + AdaptiveIds(optimalReminderTimes)
      ensures forall id :: id in old(center.pending) && id !in AdaptiveIds(optimalReminderTimes) ==>
        center.pending[id] == old(center.pending)[id]
      ensures forall h :: h in optimalReminderTimes ==> HasAdaptiveReminder(center.pending, h)
    {
      var times := optimalReminderTimes;
      assert AdaptiveIds(times[..0]) == {};
      for i := 0 to |times|
        invariant AddedReminders(center.pending, old(center.pending), times[..i])
      {
        var hour := times[i];
        var minute :| 0 <= minute <= MaxReminderMinute;
        ghost var prev := center.pending;
        center.Add(AdaptiveId(hour), CalendarTrigger(hour, minute, true));
        assert times[..i + 1] == times[..i] + [hour];
        AddReminderKeepsSchedule(old(center.pending), prev, center.pending, times[..i], hour, minute);
      }
      assert times[..|times|] == times;
    }

    /** Clears every pending request. */
    method CancelAllNotifications()
      modifies center
      ensures center.pending == map[]
    {
      center.RemoveAllPendingNotificationRequests();
    }

    /** Logs a drink at `now`, relearns, and reschedules when permission is held. */
    method LogWaterIntake(amount: int, now: int)
      modifies this, center
      ensures userDrinkingPattern == old(userDrinkingPattern) + [DrinkingSession(now, amount, now - old(lastWaterLogTime))]
      ensures lastWaterLogTime == now && hasPermission == old(hasPermission)
      ensures optimalReminderTimes ==
        if |userDrinkingPattern| >= HoursThreshold then LearnedReminderTimes(userDrinkingPattern)
        else old(optimalReminderTimes)
      ensures averageGapBetweenDrinks ==
        if |userDrinkingPattern| >= GapThreshold then Mean(Gaps(userDrinkingPattern))
        else old(averageGapBetweenDrinks)
      ensures hasPermission ==> IsFullSchedule(center.pending, optimalReminderTimes)
      ensures !hasPermission ==> center.pending == old(center.pending)
    {
      var session := DrinkingSession(now, amount, now - lastWaterLogTime);
      userDrinkingPattern := userDrinkingPattern + [session];
      lastWaterLogTime := now;
      UpdateAILearning();
      if hasPermission {
        ScheduleWaterReminders();
      }
    }

    /** Recomputes both learned values from the whole log. */
    method UpdateAILearning()
      modifies this
      ensures userDrinkingPattern == old(userDrinkingPattern) && lastWaterLogTime == old(lastWaterLogTime)
      ensures hasPermission == old(hasPermission)
      ensures optimalReminderTimes ==
        if |userDrinkingPattern| >= HoursThreshold then LearnedReminderTimes(userDrinkingPattern)
        else old(optimalReminderTimes)
      ensures averageGapBetweenDrinks ==
        if |userDrinkingPattern| >= GapThreshold then Mean(Gaps(userDrinkingPattern))
        else old(averageGapBetweenDrinks)
    {
      AnalyzeOptimalReminderTimes();
      AnalyzeAverageGaps();
    }

    /** With at least ten sessions, the reminder hours become those learned from the log;
        with fewer they stay as they are. */
    method AnalyzeOptimalReminderTimes()
      modifies this
      ensures userDrinkingPattern == old(userDrinkingPattern) && lastWaterLogTime == old(lastWaterLogTime)
      ensures hasPermission == old(hasPermission) && averageGapBetweenDrinks == old(averageGapBetweenDrinks)
      ensures |userDrinkingPattern| < HoursThreshold ==> optimalReminderTimes == old(optimalReminderTimes)
      ensures |userDrinkingPattern| >= HoursThreshold ==>
        && optimalReminderTimes == LearnedReminderTimes(userDrinkingPattern)
        && |optimalReminderTimes| <= LearnedHourCount
        && forall i :: 0 <= i < |optimalReminderTimes| ==> 8 <= optimalReminderTimes[i] <= 22
    {
      if |userDrinkingPattern| >= HoursThreshold {
        optimalReminderTimes := LearnedReminderTimes(userDrinkingPattern);
        LearnedReminderTimesShape(userDrinkingPattern);
      }
    }

    /** With at least five sessions, the mean gap becomes the mean of every session's gap;
        with fewer it stays as it is. */
    method AnalyzeAverageGaps()
      modifies this
      ensures userDrinkingPattern == old(userDrinkingPattern) && lastWaterLogTime == old(lastWaterLogTime)
      ensures hasPermission == old(hasPermission) && optimalReminderTimes == old(optimalReminderTimes)
      ensures |userDrinkingPattern| < GapThreshold ==> averageGapBetweenDrinks == old(averageGapBetweenDrinks)
      ensures |userDrinkingPattern| >= GapThreshold ==>
        && averageGapBetweenDrinks == Mean(Gaps(userDrinkingPattern))
        && averageGapBetweenDrinks * (|userDrinkingPattern| as real) == Sum(Gaps(userDrinkingPattern)) as real
    {
      if |userDrinkingPattern| >= GapThreshold {
        averageGapBetweenDrinks := Mean(Gaps(userDrinkingPattern));
      }
    }
  }
}
