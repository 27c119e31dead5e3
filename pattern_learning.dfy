/** The learning half of NotificationManager.swift: the drinking-session log entries and
    the two pure computations over the whole log, the reminder hours (the three most
    frequent drinking hours, one hour earlier, not before 8) and the mean gap between drinks. */
module PatternLearning {
  import opened Calendar
  import opened Collections

  /** Sessions needed before the reminder hours are learned. */
  const HoursThreshold := 10
  /** Sessions needed before the mean gap is learned. */
  const GapThreshold := 5
  /** Number of drinking hours the learner keeps. */
  const LearnedHourCount := 3
  /** Earliest hour a learned reminder may fire at. */
  const EarliestReminderHour := 8

  /** One logged drink; `timeSinceLastDrink` is in whole seconds. */
  datatype DrinkingSession = DrinkingSession(timestamp: int, amount: int, timeSinceLastDrink: int)

  /** An hour of the day with the number of sessions logged in it. */
  datatype HourCount = HourCount(hour: int, count: nat)

  function CountKey(c: HourCount): int {
    c.count
  }

  /** The hour of day of each session, in log order. */
  function DrinkingHours(log: seq<DrinkingSession>): seq<int> {
    seq(|log|, i requires 0 <= i < |log| => Hour(log[i].timestamp))
  }

  /** The gap recorded with each session, in log order (the first one included). */
  function Gaps(log: seq<DrinkingSession>): seq<int> {
    seq(|log|, i requires 0 <= i < |log| => log[i].timeSinceLastDrink)
  }

  /** `keys` lists each hour occurring in `hours` exactly once: the keys of the grouping
      dictionary, in whatever order the dictionary yields them. */
  ghost predicate IsKeyOrder(keys: seq<int>, hours: seq<int>) {
    NoDuplicates(keys) && forall h :: h in keys <==> h in hours
  }

  /** The hours in [from, 24) that occur in `hours`, ascending. */
  function HoursFrom(hours: seq<int>, from: int): (keys: seq<int>)
    requires 0 <= from <= 24
    ensures forall i, j :: 0 <= i < j < |keys| ==> keys[i] < keys[j]
    ensures forall x :: x in keys <==> from <= x < 24 && x in hours
    decreases 24 - from
  {
    if from == 24 then []
    else
      var rest := HoursFrom(hours, from + 1);
      assert forall k :: 0 <= k < |rest| ==> from < rest[k] by {
        forall k | 0 <= k < |rest| ensures from < rest[k] {
          assert rest[k] in rest;
        }
      }
      if from in hours then [from] + rest else rest
  }

  /** The distinct hours of a log of hours of day, ascending: the key order this model
      gives the grouping dictionary. */
  function AscendingKeys(hours: seq<int>): (keys: seq<int>)
    requires forall i :: 0 <= i < |hours| ==> 0 <= hours[i] < 24
    ensures IsKeyOrder(keys, hours)
  {
    HoursFrom(hours, 0)
  }

  /** Each key with the number of times it occurs in `hours` (the grouping dictionary
      with its values replaced by their counts). */
  function Frequencies(hours: seq<int>, keys: seq<int>): seq<HourCount> {
    seq(|keys|, i requires 0 <= i < |keys| => HourCount(keys[i], multiset(hours)[keys[i]]))
  }

  /** The counts of a list of frequencies, in order. */
  function Counts(f: seq<HourCount>): seq<int> {
    seq(|f|, i requires 0 <= i < |f| => f[i].count)
  }

  /** Grouping splits the log exactly: each group is non-empty and the group sizes add up
      to the number of sessions. */
  lemma FrequenciesPartitionLog(hours: seq<int>, keys: seq<int>)
    requires IsKeyOrder(keys, hours)
    ensures var f := Frequencies(hours, keys);
      && (forall i :: 0 <= i < |f| ==> f[i].count >= 1)
      && Sum(Counts(f)) == |hours|
  {
    var f := Frequencies(hours, keys);
    forall i | 0 <= i < |f| ensures f[i].count >= 1 {
      assert keys[i] in keys;
    }
    assert Counts(f) == CountsIn(hours, keys);
    CountsCover(hours, keys);
  }

  /** How often each key occurs in `hours`. */
  function CountsIn(hours: seq<int>, keys: seq<int>): seq<int> {
    seq(|keys|, i requires 0 <= i < |keys| => multiset(hours)[keys[i]])
  }

  /** When duplicate-free keys cover every hour, their counts add up to the number of hours. */
  lemma {:induction false} CountsCover(hours: seq<int>, keys: seq<int>)
    requires NoDuplicates(keys) && forall h :: h in hours ==> h in keys
    ensures Sum(CountsIn(hours, keys)) == |hours|
  {
    var b := CountsIn(hours, keys);
    if hours == [] {
      SumOfZeros(b);
    } else {
      var init, x := hours[..|hours| - 1], hours[|hours| - 1];
      assert hours == init + [x];
      assert forall h :: h in init ==> h in hours;
      CountsCover(init, keys);
      var a := CountsIn(init, keys);
      assert x in hours;
      var j :| 0 <= j < |keys| && keys[j] == x;
      forall i | 0 <= i < |keys| ensures b[i] == a[i] + (if i == j then 1 else 0) {
        assert multiset(hours) == multiset(init) + multiset{x};
        if i != j {
          assert keys[i] != keys[j];
        }
      }
      SumBumpOne(a, b, j);
    }
  }

  /** The frequencies sorted by descending count. */
  function Ranked(hours: seq<int>, keys: seq<int>): seq<HourCount> {
    SortDescBy(Frequencies(hours, keys), CountKey)
  }

  /** The hours of the first three ranked frequencies. */
  function TopHours(hours: seq<int>, keys: seq<int>): seq<int> {
    var ranked := Ranked(hours, keys);
    var n := Min(LearnedHourCount, |ranked|);
    seq(n, i requires 0 <= i < n => ranked[i].hour)
  }

  /** `max(h - 1, 8)`: one hour before the habitual hour, never before 08:00. */
  function ReminderHourFor(h: int): (r: int)
    ensures r >= EarliestReminderHour && r >= h - 1
    ensures r == EarliestReminderHour || r == h - 1
  {
    if h - 1 < EarliestReminderHour then EarliestReminderHour else h - 1
  }

  /** The reminder hours learned from a log. */
  function LearnedReminderTimes(log: seq<DrinkingSession>): seq<int> {
    var hours := DrinkingHours(log);
    var top := TopHours(hours, AscendingKeys(hours));
    seq(|top|, i requires 0 <= i < |top| => ReminderHourFor(top[i]))
  }

  /** Every ranked entry is a key with its true count, the ranking is as long as the key
      list, and no hour is ranked twice. */
  lemma RankedEntries(hours: seq<int>, keys: seq<int>)
    requires IsKeyOrder(keys, hours)
    ensures var ranked := Ranked(hours, keys);
      && |ranked| == |keys|
      && (forall k :: 0 <= k < |ranked| ==> ranked[k].hour in hours && ranked[k].count == multiset(hours)[ranked[k].hour])
      && (forall i, j :: 0 <= i < j < |ranked| ==> ranked[i].hour != ranked[j].hour)
  {
    var freq := Frequencies(hours, keys);
    var ranked := Ranked(hours, keys);
    forall k | 0 <= k < |ranked|
      ensures ranked[k].hour in keys && ranked[k].count == multiset(hours)[ranked[k].hour]
    {
      assert ranked[k] in multiset(freq);
      var a :| 0 <= a < |freq| && freq[a] == ranked[k];
    }
    assert NoDuplicates(freq);
    PermutationKeepsNoDuplicates(freq, ranked);
  }

  /** As many hours are kept as there are distinct drinking hours, up to three. */
  lemma TopHoursLength(hours: seq<int>, keys: seq<int>)
    requires IsKeyOrder(keys, hours)
    ensures |TopHours(hours, keys)| == Min(LearnedHourCount, |set h | h in hours|)
  {
    RankedEntries(hours, keys);
    DistinctCount(keys);
    var inHours, inKeys := set h | h in hours, set h | h in keys;
    assert forall h :: h in inHours <==> h in inKeys;
    assert inHours == inKeys;
  }

  /** The kept hours are drinking hours of the log, each kept once, in order of
      non-increasing frequency. */
  lemma TopHoursFromLog(hours: seq<int>, keys: seq<int>)
    requires IsKeyOrder(keys, hours)
    ensures var top := TopHours(hours, keys);
      && (forall i :: 0 <= i < |top| ==> top[i] in hours)
      && NoDuplicates(top)
      && (forall i, j :: 0 <= i < j < |top| ==> multiset(hours)[top[j]] <= multiset(hours)[top[i]])
  {
    RankedEntries(hours, keys);
    var ranked := Ranked(hours, keys);
    assert forall i, j :: 0 <= i < j < |ranked| ==> CountKey(ranked[j]) <= CountKey(ranked[i]);
  }

  /** A kept hour occurs at least as often as any drinking hour that is not kept. */
  lemma TopHoursMostFrequent(hours: seq<int>, keys: seq<int>)
    requires IsKeyOrder(keys, hours)
    ensures var top := TopHours(hours, keys);
      forall i, h :: 0 <= i < |top| && h in hours && h !in top ==> multiset(hours)[h] <= multiset(hours)[top[i]]
  {
    var ranked := Ranked(hours, keys);
    var top := TopHours(hours, keys);
    RankedEntries(hours, keys);
    forall i, h | 0 <= i < |top| && h in hours && h !in top
      ensures multiset(hours)[h] <= multiset(hours)[top[i]]
    {
      var p := RankOf(hours, keys, h);
      assert forall q :: 0 <= q < |top| ==> ranked[q].hour == top[q] != h;
      OutsidePrefixRanksLower(ranked, |top|, p, i);
    }
  }

  /** Every drinking hour has a place in the ranking. */
  lemma RankOf(hours: seq<int>, keys: seq<int>, h: int) returns (p: nat)
    requires IsKeyOrder(keys, hours) && h in hours
    ensures p < |Ranked(hours, keys)| && Ranked(hours, keys)[p] == HourCount(h, multiset(hours)[h])
  {
    var freq := Frequencies(hours, keys);
    var ranked := Ranked(hours, keys);
    var a :| 0 <= a < |keys| && keys[a] == h;
    assert freq[a] in multiset(ranked);
    p :| 0 <= p < |ranked| && ranked[p] == freq[a];
  }

  /** In a ranking by descending count, an entry whose hour is not among the first `n`
      has a count no larger than any of the first `n`. */
  lemma OutsidePrefixRanksLower(ranked: seq<HourCount>, n: nat, p: nat, i: nat)
    requires SortedDescBy(ranked, CountKey)
    requires i < n <= |ranked| && p < |ranked|
    requires forall q :: 0 <= q < n ==> ranked[q].hour != ranked[p].hour
    ensures ranked[p].count <= ranked[i].count
  {
    assert i < p;
    assert CountKey(ranked[p]) <= CountKey(ranked[i]);
  }

  /** A duplicate-free list has as many elements as the set of its elements. */
  lemma {:induction false} DistinctCount(s: seq<int>)
    requires NoDuplicates(s)
    ensures |set x | x in s| == |s|
  {
    if s != [] {
      var rest := s[1..];
      assert NoDuplicates(rest) by {
        forall i, j | 0 <= i < j < |rest| ensures rest[i] != rest[j] {
          assert rest[i] == s[i + 1] && rest[j] == s[j + 1];
        }
      }
      DistinctCount(rest);
      assert s[0] !in rest by {
        forall k | 0 <= k < |rest| ensures rest[k] != s[0] {
          assert rest[k] == s[k + 1];
        }
      }
      assert (set x | x in s) == {s[0]} + (set x | x in rest);
    }
  }

  /** The learned reminder hours: at most three, one per distinct kept drinking hour, each
      the hour before a drinking hour of the log or 8, hence within [8, 22]. */
  lemma LearnedReminderTimesShape(log: seq<DrinkingSession>)
    ensures var hours := DrinkingHours(log);
      var times := LearnedReminderTimes(log);
      && |times| == Min(LearnedHourCount, |set h | h in hours|)
      && (forall i :: 0 <= i < |times| ==>
            8 <= times[i] <= 22 &&
            exists h :: h in hours && times[i] == ReminderHourFor(h))
  {
    var hours := DrinkingHours(log);
    var keys := AscendingKeys(hours);
    var top := TopHours(hours, keys);
    var times := LearnedReminderTimes(log);
    TopHoursLength(hours, keys);
    TopHoursFromLog(hours, keys);
    assert forall k :: 0 <= k < |hours| ==> 0 <= hours[k] < 24;
    forall i | 0 <= i < |times|
      ensures 8 <= times[i] <= 22 && exists h :: h in hours && times[i] == ReminderHourFor(h)
    {
      assert times[i] == ReminderHourFor(top[i]) && top[i] in hours;
      var k :| 0 <= k < |hours| && hours[k] == top[i];
    }
  }
}
