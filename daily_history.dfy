/** The daily records of DataManager.swift and the pure operations on the history of them:
    completion, the same-day lookup, the end-of-day save (remove that day, append, sort
    newest first, keep 30), the weekly window and the best day. */
module DailyHistory {
  import opened Calendar
  import opened Collections
  import opened Optional

  /** Number of records the end-of-day save keeps. */
  const HistoryCapacity := 30
  /** Length of the weekly-average window, in seconds (seven 24-hour days). */
  const WeekSeconds := 7 * SecondsPerDay

  /** One day's total against that day's goal. `date` is the day's midnight for the records
      the app creates. The stored ratio `completionPercentage` is a function of the two
      integers and is represented by `IsCompleted`. */
  datatype DailyRecord = DailyRecord(date: int, totalIntake: int, goal: int) {
    predicate IsCompleted() {
      Completed(totalIntake, goal)
    }
  }

  /** `Double(total) / Double(goal) >= 1.0` evaluated on the integers: with a zero goal the
      quotient is +infinity for a positive total and NaN or -infinity otherwise. */
  predicate Completed(total: int, goal: int) {
    if goal > 0 then total >= goal
    else if goal < 0 then total <= goal
    else total > 0
  }

  /** For a non-zero goal, completion is exactly "the ratio total / goal is at least 1". */
  lemma CompletedIsRatioAtLeastOne(total: int, goal: int)
    requires goal != 0
    ensures Completed(total, goal) <==> (total as real) / (goal as real) >= 1.0
  {
    var t, g := total as real, goal as real;
    var q := t / g;
    assert q * g == t;
    if goal > 0 {
      assert q >= 1.0 <==> q * g >= g;
    } else {
      assert q >= 1.0 <==> q * g <= g;
    }
  }

  function DateKey(r: DailyRecord): int {
    r.date
  }

  /** The history ordered newest first (the app's `sorted { $0.date > $1.date }`). */
  function MostRecentFirst(h: seq<DailyRecord>): (r: seq<DailyRecord>)
    ensures multiset(r) == multiset(h)
    ensures forall i, j :: 0 <= i < j < |r| ==> r[j].date <= r[i].date
  {
    var r := SortDescBy(h, DateKey);
    assert forall i, j :: 0 <= i < j < |r| ==> DateKey(r[j]) <= DateKey(r[i]);
    r
  }

  /** Position of the first record on the same day as `day`, if any. */
  function FirstIndexOnDay(h: seq<DailyRecord>, day: int): (idx: Option<nat>)
    ensures idx.Some? ==> idx.value < |h| && SameDay(h[idx.value].date, day)
    ensures idx.Some? ==> forall j :: 0 <= j < idx.value ==> !SameDay(h[j].date, day)
    ensures idx.None? <==> forall j :: 0 <= j < |h| ==> !SameDay(h[j].date, day)
  {
    if h == [] then None
    else if SameDay(h[0].date, day) then Some(0)
    else
      match FirstIndexOnDay(h[1..], day)
      case None =>
        assert forall j :: 1 <= j < |h| ==> h[j] == h[1..][j - 1];
        None
      case Some(i) =>
        assert forall j :: 1 <= j <= i + 1 ==> h[j] == h[1..][j - 1];
        Some(i + 1)
  }

  /** The history without the records on the same day as `day` (the app's `removeAll`). */
  function RemoveDay(h: seq<DailyRecord>, day: int): (r: seq<DailyRecord>)
    ensures forall x :: multiset(r)[x] == if SameDay(x.date, day) then 0 else multiset(h)[x]
    ensures forall i :: 0 <= i < |r| ==> !SameDay(r[i].date, day)
  {
    Filter(h, (x: DailyRecord) => !SameDay(x.date, day))
  }

  /** The records the end-of-day save sorts: the old ones of other days and the new record. */
  function Merged(h: seq<DailyRecord>, rec: DailyRecord): seq<DailyRecord> {
    RemoveDay(h, rec.date) + [rec]
  }

  /** The history after the end-of-day save of `rec`: other days' records plus `rec`,
      newest first, cut to the capacity. */
  function SavedHistory(h: seq<DailyRecord>, rec: DailyRecord): seq<DailyRecord> {
    var sorted := MostRecentFirst(Merged(h, rec));
    sorted[..Min(HistoryCapacity, |sorted|)]
  }

  /** The saved history is sorted newest first, holds at most 30 records, is as long as it
      can be, and holds only records that were merged. */
  lemma SavedHistoryShape(h: seq<DailyRecord>, rec: DailyRecord)
    ensures var r := SavedHistory(h, rec);
      && |r| == Min(HistoryCapacity, |RemoveDay(h, rec.date)| + 1)
      && |r| <= HistoryCapacity
      && (forall i, j :: 0 <= i < j < |r| ==> r[j].date <= r[i].date)
      && multiset(r) <= multiset(Merged(h, rec))
  {
    var merged := Merged(h, rec);
    var sorted := MostRecentFirst(merged);
    assert |sorted| == |merged| by {
      assert |multiset(sorted)| == |multiset(merged)|;
    }
    PrefixSubBag(sorted, Min(HistoryCapacity, |sorted|));
  }

  /** The new record is the only one of its day in the merged records. */
  lemma MergedHoldsRecordOnce(h: seq<DailyRecord>, rec: DailyRecord)
    ensures multiset(Merged(h, rec))[rec] == 1
    ensures forall x :: x in multiset(Merged(h, rec)) && SameDay(x.date, rec.date) ==> x == rec
  {
    var removed := RemoveDay(h, rec.date);
    assert multiset(Merged(h, rec)) == multiset(removed) + multiset{rec};
    assert multiset(removed)[rec] == 0;
  }

  /** After the save, the record of the saved day is the new record and no other record
      is on that day. */
  lemma SavedHistoryOneRecordForDay(h: seq<DailyRecord>, rec: DailyRecord)
    ensures var r := SavedHistory(h, rec);
      && (forall i :: 0 <= i < |r| && SameDay(r[i].date, rec.date) ==> r[i] == rec)
      && (forall i, j :: 0 <= i < j < |r| && SameDay(r[i].date, rec.date) ==> !SameDay(r[j].date, rec.date))
  {
    var r := SavedHistory(h, rec);
    SavedHistoryShape(h, rec);
    MergedHoldsRecordOnce(h, rec);
    forall i | 0 <= i < |r| && SameDay(r[i].date, rec.date) ensures r[i] == rec {
      assert r[i] in multiset(r);
    }
    AtMostOnce(r, rec);
  }

  /** The save keeps the new record unless the cut leaves 30 records that are all newer. */
  lemma SavedHistoryKeepsRecord(h: seq<DailyRecord>, rec: DailyRecord)
    ensures var r := SavedHistory(h, rec);
      rec in r || (|r| == HistoryCapacity && forall x :: x in r ==> rec.date < x.date)
  {
    var sorted := MostRecentFirst(Merged(h, rec));
    MergedHoldsRecordOnce(h, rec);
    PrefixKeepsOrNewer(sorted, rec, Min(HistoryCapacity, |sorted|));
  }

  /** In a newest-first list where `rec` is the only record of its day, a prefix either
      holds `rec` or is the whole capacity of records on later days. */
  lemma PrefixKeepsOrNewer(sorted: seq<DailyRecord>, rec: DailyRecord, n: nat)
    requires forall i, j :: 0 <= i < j < |sorted| ==> sorted[j].date <= sorted[i].date
    requires multiset(sorted)[rec] == 1
    requires forall x :: x in multiset(sorted) && SameDay(x.date, rec.date) ==> x == rec
    requires n == Min(HistoryCapacity, |sorted|)
    ensures rec in sorted[..n] || (n == HistoryCapacity && forall x :: x in sorted[..n] ==> rec.date < x.date)
  {
    assert rec in multiset(sorted);
    var p :| 0 <= p < |sorted| && sorted[p] == rec;
    if p < n {
      assert sorted[..n][p] == rec;
    } else {
      AtMostOnce(sorted, rec);
      forall k | 0 <= k < n ensures rec.date < sorted[..n][k].date {
        assert sorted[k] in multiset(sorted);
      }
    }
  }

  /** Every record the cut drops is no newer than any record it keeps. */
  lemma SavedHistoryDropsOldest(h: seq<DailyRecord>, rec: DailyRecord)
    ensures var r := SavedHistory(h, rec);
      forall x, k :: x in multiset(Merged(h, rec)) - multiset(r) && k in r ==> x.date <= k.date
  {
    var sorted := SortDescBy(Merged(h, rec), DateKey);
    SortedPrefixDominates(sorted, Min(HistoryCapacity, |sorted|), DateKey);
  }

  /** No two records of the history fall on the same day. */
  predicate DistinctDays(h: seq<DailyRecord>) {
    forall i, j :: 0 <= i < j < |h| ==> !SameDay(h[i].date, h[j].date)
  }

  /** The same property of a bag of records: each record once, and distinct records on distinct days. */
  ghost predicate DistinctDaysIn(m: multiset<DailyRecord>) {
    && (forall x :: m[x] <= 1)
    && (forall x, y :: x in m && y in m && x != y ==> !SameDay(x.date, y.date))
  }

  /** Whether a history has distinct days depends only on which records it holds. */
  lemma DistinctDaysByRecords(h: seq<DailyRecord>)
    ensures DistinctDays(h) <==> DistinctDaysIn(multiset(h))
  {
    if DistinctDays(h) {
      assert NoDuplicates(h);
      forall x ensures multiset(h)[x] <= 1 {
        NoDuplicatesCountsOnce(h, x);
      }
      forall x: DailyRecord, y: DailyRecord | x in multiset(h) && y in multiset(h) && x != y
        ensures !SameDay(x.date, y.date)
      {
        var i :| 0 <= i < |h| && h[i] == x;
        var j :| 0 <= j < |h| && h[j] == y;
        assert i != j;
      }
    }
    if DistinctDaysIn(multiset(h)) {
      forall i, j | 0 <= i < j < |h| ensures !SameDay(h[i].date, h[j].date) {
        AtMostOnce(h, h[i]);
        assert h[i] in multiset(h) && h[j] in multiset(h);
      }
    }
  }

  /** The end-of-day save keeps a history free of two records for one day. */
  lemma SavedHistoryDistinctDays(h: seq<DailyRecord>, rec: DailyRecord)
    requires DistinctDays(h)
    ensures DistinctDays(SavedHistory(h, rec))
  {
    var r := SavedHistory(h, rec);
    DistinctDaysByRecords(h);
    MergedDistinctDays(h, rec);
    SavedHistoryShape(h, rec);
    SubBagDistinctDays(multiset(r), multiset(Merged(h, rec)));
    DistinctDaysByRecords(r);
  }

  /** Removing a day's records and appending one record for it keeps days distinct. */
  lemma MergedDistinctDays(h: seq<DailyRecord>, rec: DailyRecord)
    requires DistinctDaysIn(multiset(h))
    ensures DistinctDaysIn(multiset(Merged(h, rec)))
  {
    var removed := RemoveDay(h, rec.date);
    var merged := multiset(Merged(h, rec));
    assert merged == multiset(removed) + multiset{rec};
    assert multiset(removed)[rec] == 0;
    forall x: DailyRecord, y: DailyRecord | x in merged && y in merged && x != y
      ensures !SameDay(x.date, y.date)
    {
      if x != rec && y != rec {
        assert x in multiset(h) && y in multiset(h);
      }
    }
  }

  /** Fewer records keep days distinct. */
  lemma SubBagDistinctDays(sub: multiset<DailyRecord>, m: multiset<DailyRecord>)
    requires sub <= m && DistinctDaysIn(m)
    ensures DistinctDaysIn(sub)
  {
  }

  /** Position of the first record with the largest total (Swift's `max(by:)` keeps the
      earlier element when the later one is not strictly larger). */
  function BestIndex(h: seq<DailyRecord>): (k: nat)
    requires |h| > 0
    ensures k < |h|
    ensures forall j :: 0 <= j < |h| ==> h[j].totalIntake <= h[k].totalIntake
    ensures forall j :: 0 <= j < k ==> h[j].totalIntake < h[k].totalIntake
  {
    if |h| == 1 then 0
    else
      var k := BestIndex(h[..|h| - 1]);
      assert forall j :: 0 <= j < |h| - 1 ==> h[..|h| - 1][j] == h[j];
      if h[k].totalIntake < h[|h| - 1].totalIntake then |h| - 1 else k
  }

  /** The records dated at or after `cutoff`. */
  function RecordsSince(h: seq<DailyRecord>, cutoff: int): (w: seq<DailyRecord>)
    ensures forall x :: multiset(w)[x] == if x.date >= cutoff then multiset(h)[x] else 0
    ensures forall i :: 0 <= i < |w| ==> w[i].date >= cutoff && w[i] in h
    ensures forall x :: x in h && x.date >= cutoff ==> x in w
  {
    var w := Filter(h, (x: DailyRecord) => x.date >= cutoff);
    assert forall x :: x in h ==> x in multiset(h);
    w
  }

  function Totals(rs: seq<DailyRecord>): seq<int> {
    seq(|rs|, i requires 0 <= i < |rs| => rs[i].totalIntake)
  }

  /** The mean total of a non-empty window lies between the smallest and the largest
      total of the records in it. */
  lemma RecordsSinceMeanBounds(h: seq<DailyRecord>, cutoff: int)
    requires |RecordsSince(h, cutoff)| > 0
    ensures var m := Mean(Totals(RecordsSince(h, cutoff)));
      && (exists lo :: lo in h && lo.date >= cutoff && lo.totalIntake as real <= m)
      && (exists hi :: hi in h && hi.date >= cutoff && m <= hi.totalIntake as real)
  {
    var w := RecordsSince(h, cutoff);
    var totals := Totals(w);
    var lo, hi := w[MinIndex(totals)], w[MaxIndex(totals)];
    assert lo in h && lo.date >= cutoff && hi in h && hi.date >= cutoff;
  }
}
