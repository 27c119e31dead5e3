# HydroTrack core in Dafny

HydroTrack is a personal hydration tracker for iOS. Its logic lives in two Swift classes, and this project models both:

- **`DataManager`** keeps the running total for today, the daily goal and the instant of the last reset. It also keeps a history of daily records. Each record holds a date (the day's midnight), that day's total and that day's goal. `DataManager`:
  - rolls the day over when the date changes;
  - stores the finished day's record, removing every record of that day, sorting newest first and keeping 30 records;
  - upserts today's record whenever water is logged;
  - answers three statistics: the weekly average, the current streak of completed days and the best day.
- **`NotificationManager`** keeps an append-only log of drinking sessions. From that log it learns two things:
  - the reminder hours: the three most frequent drinking hours, each moved one hour earlier and never before 08:00;
  - the mean gap between drinks.

  When rescheduling, it wipes every pending notification request. It then adds a repeating 20:00 completion check and one repeating `adaptive-reminder-<h>` per learned hour, each at a random minute in 0...30.

Modelling choices:

- Instants are whole seconds. A day is 86400 seconds in one fixed time zone (module `Calendar`).
- Reads of the wall clock become a parameter `now`.
- The notification centre is a class whose state is the map of pending requests, keyed by identifier.
- The random minute is a nondeterministic choice.
- The stored completion ratio `Double(total) / Double(goal) >= 1.0` is decided on the integers. This follows IEEE division as long as both values are exactly representable as `Double` (magnitudes up to 2^53); the rounding beyond that is listed under "Left out":
  - for a positive goal, the total reaches the goal;
  - for a negative goal, the total is at most the goal;
  - for a zero goal, the total is positive, because the quotient is +infinity (and NaN or -infinity otherwise).

Where one might expect otherwise, the model follows the code:

- The first session's gap counts in the mean gap. It is measured from the instant the manager was created.
- The streak counts leading completed records newest first. It does not stop at a missing day.
- When several days tie for the best total, the best day is the first such record in array order, not the most recent one.
- The 30-record cap is applied only by the end-of-day save. Logging water on a new day may append a 31st record until the next rollover.
- The new-day check runs only when the store is created.
- The adaptive minute ranges over 0...30 inclusive.

Two orders are unspecified in the source:

- The order among equal keys after `sorted(by:)`. The model's sort is one particular rearrangement (a stable insertion sort), and its proved properties are that it is sorted and a permutation.
- The order of the grouping dictionary's keys. The lemmas about the learned hours hold for every duplicate-free key order (`IsKeyOrder`). The class uses ascending hours.

## Model

| member | source | states |
|---|---|---|
| Calendar.StartOfDay | HydroTrack/HydroTrack/DataManager.swift:126 | the start of day is a midnight at or before the instant and less than a day before it |
| Calendar.Hour | HydroTrack/HydroTrack/NotificationManager.swift:129-131 | the hour of day is in 0..23 and the instant lies inside that hour of its day |
| Calendar.SameDay | HydroTrack/HydroTrack/DataManager.swift:120 | `isDate(_:inSameDayAs:)`: two instants are on the same day exactly when their midnights coincide; StartOfDayIsOnSameDay places an instant on its own midnight's day |
| Calendar.StartOfDayIsOnSameDay | HydroTrack/HydroTrack/DataManager.swift:147 | an instant is on the same day as its midnight, and taking the start of day twice changes nothing |
| Collections.SortDescBy | HydroTrack/HydroTrack/DataManager.swift:141 | the sort returns a permutation of its input ordered by non-increasing key |
| Collections.Filter | HydroTrack/HydroTrack/DataManager.swift:169 | the filter keeps exactly the elements that pass, with their multiplicities, and nothing else |
| Collections.Sum | HydroTrack/HydroTrack/DataManager.swift:173 | the `reduce(0, +)` total; SumBounds bounds it by count times the smallest and largest element, and Mean divides it by the count |
| Collections.Mean | HydroTrack/HydroTrack/NotificationManager.swift:146 | mean times count equals the sum, and the mean lies between the smallest and the largest element |
| Decimal.IntToString | HydroTrack/HydroTrack/NotificationManager.swift:85 | the decimal text is non-empty and starts with '-' exactly for negative numbers |
| Decimal.IntToStringInjective | HydroTrack/HydroTrack/NotificationManager.swift:85 | different integers are written as different decimal texts |
| DailyHistory.Completed | HydroTrack/HydroTrack/DataManager.swift:206-208 | completion of a total against a goal; CompletedIsRatioAtLeastOne proves it is "total / goal is at least 1" for every non-zero goal |
| DailyHistory.DailyRecord.IsCompleted | HydroTrack/HydroTrack/DataManager.swift:206-208 | `isCompleted` of a record is Completed of its total and goal |
| DailyHistory.CompletedIsRatioAtLeastOne | HydroTrack/HydroTrack/DataManager.swift:206-208 | for a non-zero goal, a record is completed exactly when total / goal is at least 1 |
| DailyHistory.MostRecentFirst | HydroTrack/HydroTrack/DataManager.swift:178 | the newest-first order holds the same records and has non-increasing dates |
| DailyHistory.FirstIndexOnDay | HydroTrack/HydroTrack/DataManager.swift:156 | the result is the first index on the given day; it is none exactly when no record is on that day |
| DailyHistory.RemoveDay | HydroTrack/HydroTrack/DataManager.swift:135 | every record of the given day is removed and every other record keeps its multiplicity |
| DailyHistory.SavedHistory | HydroTrack/HydroTrack/DataManager.swift:134-141 | remove the saved day, append, sort newest first, keep 30; its properties are the SavedHistory* lemmas below |
| DailyHistory.SavedHistoryShape | HydroTrack/HydroTrack/DataManager.swift:134-141 | after the save the history is newest first, holds min(30, records of other days + 1) records, and holds only merged records |
| DailyHistory.MergedHoldsRecordOnce | HydroTrack/HydroTrack/DataManager.swift:134-138 | after removing and appending, the new record occurs once and is the only record of its day |
| DailyHistory.SavedHistoryOneRecordForDay | HydroTrack/HydroTrack/DataManager.swift:125-144 | after the save, exactly one record can carry the saved day, and it is the new record |
| DailyHistory.SavedHistoryKeepsRecord | HydroTrack/HydroTrack/DataManager.swift:138-141 | the new record survives the cut unless 30 newer records fill the history |
| DailyHistory.SavedHistoryDropsOldest | HydroTrack/HydroTrack/DataManager.swift:140-141 | every record the cut drops is no newer than any record it keeps |
| DailyHistory.DistinctDaysByRecords | HydroTrack/HydroTrack/DataManager.swift:134-141 | "no two records on one day" depends only on which records the history holds, not on their order |
| DailyHistory.SavedHistoryDistinctDays | HydroTrack/HydroTrack/DataManager.swift:125-144 | the save keeps a history that has at most one record per day |
| DailyHistory.BestIndex | HydroTrack/HydroTrack/DataManager.swift:193 | the index holds a largest total, and every earlier record's total is strictly smaller |
| DailyHistory.RecordsSince | HydroTrack/HydroTrack/DataManager.swift:169 | the window holds exactly the records dated at or after the cutoff, with their multiplicities |
| DailyHistory.RecordsSinceMeanBounds | HydroTrack/HydroTrack/DataManager.swift:171-174 | the mean of a non-empty window lies between the totals of two records of that window |
| DataManagement.DataManager.constructor | HydroTrack/HydroTrack/DataManager.swift:25-28 | the stored values are loaded, a zero goal becomes 2250, a missing reset date becomes now, and a stale day is rolled over; afterwards the last reset is on today |
| DataManagement.DataManager.LogWater | HydroTrack/HydroTrack/DataManager.swift:32-38 | the total grows by the amount; the first record on today's day is replaced in place by today's record, or the record is appended when there is none; other days' records are untouched; distinct days are preserved |
| DataManagement.DataManager.ResetDailyProgress | HydroTrack/HydroTrack/DataManager.swift:40-47 | the finished day's record is saved under the last reset's day, then the total is 0 and the reset instant is now |
| DataManagement.DataManager.UpdateDailyGoal | HydroTrack/HydroTrack/DataManager.swift:51-54 | only the goal changes, to the given value |
| DataManagement.DataManager.CheckForNewDay | HydroTrack/HydroTrack/DataManager.swift:115-123 | on the same day nothing changes; otherwise the day is reset; afterwards the last reset is on today, so a second call changes nothing |
| DataManagement.DataManager.SaveDailyRecord | HydroTrack/HydroTrack/DataManager.swift:125-144 | the history becomes the saved history of the finished record, with at most 30 records and distinct days preserved |
| DataManagement.DataManager.UpdateTodayRecord | HydroTrack/HydroTrack/DataManager.swift:146-163 | the first record on today is replaced in place, or the record is appended when there is none; other days' records are untouched; distinct days are preserved |
| DataManagement.DataManager.GetWeeklyAverage | HydroTrack/HydroTrack/DataManager.swift:167-175 | 0 when no record is from the last seven days; otherwise the mean of those records' totals, between the smallest and the largest of them |
| DataManagement.DataManager.GetStreakDays | HydroTrack/HydroTrack/DataManager.swift:177-190 | the streak k is at most the history size, the k newest records are completed, and the next one is not |
| DataManagement.DataManager.GetBestDay | HydroTrack/HydroTrack/DataManager.swift:192-194 | none exactly for an empty history; otherwise a member with the largest total and no earlier record as large |
| PatternLearning.AscendingKeys | HydroTrack/HydroTrack/NotificationManager.swift:134 | the keys list each occurring hour exactly once |
| PatternLearning.FrequenciesPartitionLog | HydroTrack/HydroTrack/NotificationManager.swift:134-135 | grouping splits the log exactly: every group is non-empty and the group sizes add up to the number of sessions |
| PatternLearning.RankedEntries | HydroTrack/HydroTrack/NotificationManager.swift:134-136 | the ranking pairs each occurring hour with its true count, once per hour |
| PatternLearning.TopHours | HydroTrack/HydroTrack/NotificationManager.swift:136-139 | the hours of the first three ranked groups; TopHoursLength, TopHoursFromLog and TopHoursMostFrequent state its properties |
| PatternLearning.TopHoursLength | HydroTrack/HydroTrack/NotificationManager.swift:139 | min(3, number of distinct hours) hours are kept |
| PatternLearning.TopHoursFromLog | HydroTrack/HydroTrack/NotificationManager.swift:134-139 | the kept hours occur in the log, are distinct, and come in order of non-increasing frequency |
| PatternLearning.TopHoursMostFrequent | HydroTrack/HydroTrack/NotificationManager.swift:136-139 | every kept hour occurs at least as often as any hour that is not kept |
| PatternLearning.DistinctCount | HydroTrack/HydroTrack/NotificationManager.swift:134 | a duplicate-free key list is as long as the set of hours it lists |
| PatternLearning.ReminderHourFor | HydroTrack/HydroTrack/NotificationManager.swift:139 | `max(h - 1, 8)`: at least 8 and at least h - 1, and equal to one of them |
| PatternLearning.LearnedReminderTimes | HydroTrack/HydroTrack/NotificationManager.swift:129-139 | the reminder hours learned from a log; LearnedReminderTimesShape states their number, origin and range |
| PatternLearning.LearnedReminderTimesShape | HydroTrack/HydroTrack/NotificationManager.swift:129-139 | min(3, distinct hours) reminder hours, each max(h - 1, 8) for an hour h of the log, hence within 8..22 |
| Notifications.AdaptiveId | HydroTrack/HydroTrack/NotificationManager.swift:85 | `"adaptive-reminder-\(hour)"`; AdaptiveIdInjective and AdaptiveIdIsNotDailyCheck state that identifiers never collide |
| Notifications.AdaptiveIdInjective | HydroTrack/HydroTrack/NotificationManager.swift:85 | two hours share an adaptive identifier exactly when they are equal |
| Notifications.AdaptiveIdIsNotDailyCheck | HydroTrack/HydroTrack/NotificationManager.swift:67 | no adaptive identifier is the completion check's identifier |
| Notifications.NotificationCenter.RemoveAllPendingNotificationRequests | HydroTrack/HydroTrack/NotificationManager.swift:46 | no request is pending afterwards |
| Notifications.NotificationCenter.Add | HydroTrack/HydroTrack/NotificationManager.swift:69 | the request is pending under its identifier, replacing any earlier one, and nothing else changes |
| Notifications.NotificationManager.constructor | HydroTrack/HydroTrack/NotificationManager.swift:11-23 | no permission yet; the stored log, hours (default 9, 13, 17) and gap (0 becomes 10800) are loaded; the last drink is at now |
| Notifications.NotificationManager.OnAuthorizationResponse | HydroTrack/HydroTrack/NotificationManager.swift:26-33 | the permission is the answer and no other field changes; a granted permission leaves the full schedule pending, a denied one leaves pending as it was |
| Notifications.NotificationManager.OnNotificationSettings | HydroTrack/HydroTrack/NotificationManager.swift:37-41 | the permission becomes the authorisation status and no other field changes |
| Notifications.NotificationManager.ScheduleWaterReminders | HydroTrack/HydroTrack/NotificationManager.swift:44-53 | pending is exactly the 20:00 check plus one reminder per distinct learned hour, each at its hour, a minute in 0..30 and repeating |
| Notifications.NotificationManager.ScheduleDailyCompletionCheck | HydroTrack/HydroTrack/NotificationManager.swift:55-70 | a repeating 20:00 check is added under its identifier |
| Notifications.NotificationManager.ScheduleAdaptiveReminders | HydroTrack/HydroTrack/NotificationManager.swift:72-89 | one reminder per learned hour is added, at that hour, a minute in 0..30 and repeating; other identifiers are untouched |
| Notifications.NotificationManager.CancelAllNotifications | HydroTrack/HydroTrack/NotificationManager.swift:91-93 | no request is pending afterwards |
| Notifications.NotificationManager.LogWaterIntake | HydroTrack/HydroTrack/NotificationManager.swift:97-114 | one session with gap now minus the last drink is appended; the last drink becomes now; learning reruns; the schedule is replaced only with permission, otherwise pending is unchanged |
| Notifications.NotificationManager.UpdateAILearning | HydroTrack/HydroTrack/NotificationManager.swift:116-123 | both learned values are recomputed from the whole log under their thresholds |
| Notifications.NotificationManager.AnalyzeOptimalReminderTimes | HydroTrack/HydroTrack/NotificationManager.swift:125-140 | with fewer than 10 sessions the hours are unchanged; otherwise they are the learned hours (hour of day of each session, grouped, ranked by count, top 3, each max(h - 1, 8)), at most 3, within 8..22 |
| Notifications.NotificationManager.AnalyzeAverageGaps | HydroTrack/HydroTrack/NotificationManager.swift:142-147 | with fewer than 5 sessions the gap is unchanged; otherwise it is the sum of every session's recorded gap, the first session's included, divided by the session count |

## Left out

- Persistence to `UserDefaults` with JSON encoding (DataManager.swift:70-111, NotificationManager.swift:205-229): it calls a foreign library. The stored values become constructor parameters, where a missing or undecodable value is `None` and a missing number is 0.
- Partner settings and message texts (`updatePartnerSettings`, `updateMessages`, the partner and default message fields): they are stored strings with no logic.
- Notification titles and bodies (NotificationManager.swift:151-201): they are a random choice among fixed strings. Requests are modelled by identifier and trigger only.
- Asynchronous permission handling: the permission request and the settings query are modelled by their callbacks only. Dispatch to the main queue is not modelled.
- Time zones, daylight saving and `Calendar.current`: a day is always 86400 seconds. Seven days back is `now - 7 * 86400`.
- Floating point:
  - Completion is decided on exact integers; for totals or goals beyond 2^53, where `Double` rounds (for example total 2^54 - 1 against goal 2^54 gives quotient 1.0), the model's `Completed` can differ from the app's.
  - `TimeInterval` gaps are whole seconds.
  - The mean gap and the weekly average are exact reals, not `Double`.
  - `completionPercentage` is represented by the integer predicate `Completed`.
- Swift's trap on `Int` overflow when adding to the total: integers are unbounded.
- `DailyRecord.id`: it is a fresh UUID per record and plays no part in the logic.
- `logWaterIntake` reads the clock three times (NotificationManager.swift:99, 101, 105). The model uses one instant `now` for all three, so the session's timestamp, its gap and the new last-drink time always agree.
- The initialisers read the clock more than once: `DataManager.init` reads it for the default reset date, again in the new-day check and again for the new reset instant (DataManager.swift:92, 117, 45); `NotificationManager` reads it for the initial last-drink time (NotificationManager.swift:17) separately from every later read. The model uses one `now` per initialiser, so a midnight falling between the reads (which, with no stored reset date, would make the new-day check roll over) is not captured.
- The order among equal keys in `sorted(by:)`, and the dictionary's key order: both are unspecified in the source. The model fixes one order for each, as described above.
- SwiftUI views and the server-side handlers: they hold display arithmetic and storage I/O only.
