/** Aggregations over logged sets (src/lib/progress.ts): volume sums, the
    best set, per-day volume and the count of distinct workout days. A
    calendar date is a day number; `LogEntry.date` is a timestamp in
    milliseconds. */
module Progress {
  import opened Seqs

  /** A logged set tagged with its exercise (`SetEntryLog & { exerciseId }`). */
  datatype FlatLog = FlatLog(exerciseId: string, id: string, isoDate: int, weightKg: real, reps: real, createdAt: int)

  /** The older entry shape used by the volume chart. */
  datatype LogEntry = LogEntry(id: string, exerciseId: string, exerciseName: string, weight: real, reps: real, date: int)

  function FlatLoad(e: FlatLog): real {
    e.weightKg * e.reps
  }

  function EntryLoad(e: LogEntry): real {
    e.weight * e.reps
  }

  /** `totalVolumeKg`: Σ weightKg·reps, 0 for no entries, never negative
      when no weight or rep count is. */
  function TotalVolumeKg(entries: seq<FlatLog>): (v: real)
    ensures |entries| == 0 ==> v == 0.0
    ensures (forall i :: 0 <= i < |entries| ==> entries[i].weightKg >= 0.0 && entries[i].reps >= 0.0) ==> v >= 0.0
  {
    Sum(entries, FlatLoad)
  }

  /** The total volume of a concatenation is the sum of the totals. */
  lemma TotalVolumeKgConcat(a: seq<FlatLog>, b: seq<FlatLog>)
    ensures TotalVolumeKg(a + b) == TotalVolumeKg(a) + TotalVolumeKg(b)
  {
    SumConcat(a, b, FlatLoad);
  }

  /** `totalVolume`: Σ weight·reps over chart entries. */
  function TotalVolume(entries: seq<LogEntry>): (v: real)
    ensures |entries| == 0 ==> v == 0.0
    ensures (forall i :: 0 <= i < |entries| ==> entries[i].weight >= 0.0 && entries[i].reps >= 0.0) ==> v >= 0.0
  {
    Sum(entries, EntryLoad)
  }

  /** The total volume of a concatenation is the sum of the totals. */
  lemma TotalVolumeConcat(a: seq<LogEntry>, b: seq<LogEntry>)
    ensures TotalVolume(a + b) == TotalVolume(a) + TotalVolume(b)
  {
    SumConcat(a, b, EntryLoad);
  }

  /** `sliceByDate`: the entries dated within [start, end], both ends
      inclusive, in their original order (`Filter`, see `FilterConcat`). */
  function SliceByDate(entries: seq<LogEntry>, start: int, end: int): (r: seq<LogEntry>)
    ensures forall x :: x in r <==> x in entries && start <= x.date <= end
    ensures forall x: LogEntry :: start <= x.date <= end ==> multiset(r)[x] == multiset(entries)[x]
    ensures r == Filter(entries, (e: LogEntry) => start <= e.date <= end)
  {
    Filter(entries, (e: LogEntry) => start <= e.date <= end)
  }

  /** What `bestSet` returns: the entry and its load. */
  datatype BestSetResult = BestSetResult(entry: FlatLog, scoreKgReps: real)

  /** `bestSet`: the first entry of greatest load, `None` exactly for no entries. */
  method BestSet(entries: seq<FlatLog>) returns (r: Option<BestSetResult>)
    ensures r.None? <==> |entries| == 0
    ensures r.Some? ==>
              var i := ArgMax(entries, FlatLoad);
              r.value.entry == entries[i] && r.value.scoreKgReps == FlatLoad(entries[i])
  {
    var best: Option<FlatLog> := None;
    var score := 0.0;
    ghost var bi := -1;
    for k := 0 to |entries|
      invariant bi == ArgMax(entries[..k], FlatLoad)
      invariant bi < 0 ==> best.None?
      invariant bi >= 0 ==> best == Some(entries[bi]) && score == FlatLoad(entries[bi])
    {
      ArgMaxStep(entries, k, FlatLoad);
      var s := FlatLoad(entries[k]);
      if best.None? || s > score {
        score := s;
        best := Some(entries[k]);
        bi := k;
      }
    }
    assert entries[..|entries|] == entries;
    r := if best.Some? then Some(BestSetResult(best.value, score)) else None;
  }

  /** The dates the entries fall on (`new Set(entries.map(e => e.isoDate))`). */
  function DateSet(entries: seq<FlatLog>): set<int> {
    set i | 0 <= i < |entries| :: entries[i].isoDate
  }

  lemma DateSetSnoc(entries: seq<FlatLog>)
    requires |entries| > 0
    ensures DateSet(entries) == DateSet(entries[..|entries| - 1]) + {entries[|entries| - 1].isoDate}
  {
    var prefix := entries[..|entries| - 1];
    forall d ensures d in DateSet(entries) <==> d in DateSet(prefix) + {entries[|entries| - 1].isoDate} {
      if d in DateSet(entries) {
        var i :| 0 <= i < |entries| && entries[i].isoDate == d;
        if i < |prefix| { assert prefix[i] == entries[i]; }
      }
      if d in DateSet(prefix) {
        var i :| 0 <= i < |prefix| && prefix[i].isoDate == d;
        assert entries[i] == prefix[i];
      }
    }
  }

  /** There are at most as many distinct dates as entries, and at least one
      when there is an entry. */
  lemma {:induction false} DateSetCard(entries: seq<FlatLog>)
    ensures |DateSet(entries)| <= |entries|
    ensures |entries| > 0 ==> |DateSet(entries)| > 0
  {
    if |entries| > 0 {
      DateSetSnoc(entries);
      DateSetCard(entries[..|entries| - 1]);
    }
  }

  /** `workoutDaysCount`: the number of distinct dates, at most the number
      of entries and 0 exactly for no entries. */
  function WorkoutDaysCount(entries: seq<FlatLog>): (n: nat)
    ensures n <= |entries|
    ensures n == 0 <==> |entries| == 0
  {
    DateSetCard(entries);
    |DateSet(entries)|
  }

  /** The volume logged on day `d`. */
  function VolumeOn(entries: seq<FlatLog>, d: int): real {
    if |entries| == 0 then 0.0
    else
      var e := entries[|entries| - 1];
      VolumeOn(entries[..|entries| - 1], d) + (if e.isoDate == d then FlatLoad(e) else 0.0)
  }

  /** A day with no entry has no volume. */
  lemma {:induction false} VolumeOnUnlogged(entries: seq<FlatLog>, d: int)
    requires d !in DateSet(entries)
    ensures VolumeOn(entries, d) == 0.0
  {
    if |entries| > 0 {
      DateSetSnoc(entries);
      VolumeOnUnlogged(entries[..|entries| - 1], d);
    }
  }

  /** One row of `byDayVolumeKg`. */
  datatype DayVolume = DayVolume(date: int, volumeKgReps: real)

  function DayKey(r: DayVolume): Key {
    Key(r.date, 0)
  }

  function DateOf(r: DayVolume): int {
    r.date
  }

  function VolumeOf(r: DayVolume): real {
    r.volumeKgReps
  }

  /** The dates the rows carry. */
  function RowDates(rows: seq<DayVolume>): set<int> {
    set i | 0 <= i < |rows| :: rows[i].date
  }

  lemma RowDatesSnoc(rows: seq<DayVolume>)
    requires |rows| > 0
    ensures RowDates(rows) == RowDates(rows[..|rows| - 1]) + {rows[|rows| - 1].date}
  {
    var prefix := rows[..|rows| - 1];
    forall d ensures d in RowDates(rows) <==> d in RowDates(prefix) + {rows[|rows| - 1].date} {
      if d in RowDates(rows) {
        var i :| 0 <= i < |rows| && rows[i].date == d;
        if i < |prefix| { assert prefix[i] == rows[i]; }
      }
      if d in RowDates(prefix) {
        var i :| 0 <= i < |prefix| && prefix[i].date == d;
        assert rows[i] == prefix[i];
      }
    }
  }

  /** Rows with pairwise distinct dates carry as many dates as there are rows. */
  lemma {:induction false} RowDatesCard(rows: seq<DayVolume>)
    requires DistinctBy(rows, DateOf)
    ensures |RowDates(rows)| == |rows|
  {
    if |rows| > 0 {
      var prefix := rows[..|rows| - 1];
      assert DistinctBy(prefix, DateOf) by {
        assert forall i :: 0 <= i < |prefix| ==> prefix[i] == rows[i];
      }
      RowDatesCard(prefix);
      RowDatesSnoc(rows);
      assert rows[|rows| - 1].date !in RowDates(prefix) by {
        assert forall i :: 0 <= i < |prefix| ==> prefix[i] == rows[i];
      }
    }
  }

  /** Σ over the rows of the volume `entries` log on each row's date. */
  function SpreadVolume(rows: seq<DayVolume>, entries: seq<FlatLog>): real {
    if |rows| == 0 then 0.0
    else SpreadVolume(rows[..|rows| - 1], entries) + VolumeOn(entries, rows[|rows| - 1].date)
  }

  /** Adding one entry adds its load to the spread exactly once when its
      date occurs once among the rows, and not at all when it does not occur. */
  lemma {:induction false} SpreadVolumeSnoc(rows: seq<DayVolume>, entries: seq<FlatLog>, e: FlatLog)
    requires DistinctBy(rows, DateOf)
    ensures SpreadVolume(rows, entries + [e])
         == SpreadVolume(rows, entries) + (if e.isoDate in RowDates(rows) then FlatLoad(e) else 0.0)
  {
    assert (entries + [e])[..|entries + [e]| - 1] == entries;
    if |rows| > 0 {
      var prefix := rows[..|rows| - 1];
      assert DistinctBy(prefix, DateOf) by {
        assert forall i :: 0 <= i < |prefix| ==> prefix[i] == rows[i];
      }
      SpreadVolumeSnoc(prefix, entries, e);
      if e.isoDate == rows[|rows| - 1].date {
        assert e.isoDate !in RowDates(prefix);
      }
    }
  }

  /** With no entries every day's volume, and so the spread, is 0. */
  lemma {:induction false} SpreadVolumeEmpty(rows: seq<DayVolume>)
    ensures SpreadVolume(rows, []) == 0.0
  {
    if |rows| > 0 {
      SpreadVolumeEmpty(rows[..|rows| - 1]);
    }
  }

  /** Spreading over rows with distinct dates that cover every logged date
      recovers the total volume. */
  lemma {:induction false} SpreadVolumeTotal(rows: seq<DayVolume>, entries: seq<FlatLog>)
    requires DistinctBy(rows, DateOf)
    requires DateSet(entries) <= RowDates(rows)
    ensures SpreadVolume(rows, entries) == TotalVolumeKg(entries)
  {
    if |entries| == 0 {
      SpreadVolumeEmpty(rows);
    } else {
      var prefix := entries[..|entries| - 1];
      var e := entries[|entries| - 1];
      DateSetSnoc(entries);
      SpreadVolumeTotal(rows, prefix);
      SpreadVolumeSnoc(rows, prefix, e);
      assert entries == prefix + [e];
    }
  }

  /** Σ of the rows' own volumes. */
  function DaySum(rows: seq<DayVolume>): real {
    Sum(rows, VolumeOf)
  }

  /** The per-day volumes sum to the total volume, and there is one row per
      workout day, for any rows with distinct dates that carry exactly the
      logged dates and each date's volume. */
  lemma {:induction false} ByDayAgreesWithTotals(rows: seq<DayVolume>, entries: seq<FlatLog>)
    requires DistinctBy(rows, DateOf)
    requires RowDates(rows) == DateSet(entries)
    requires forall i :: 0 <= i < |rows| ==> rows[i].volumeKgReps == VolumeOn(entries, rows[i].date)
    ensures DaySum(rows) == TotalVolumeKg(entries)
    ensures |rows| == WorkoutDaysCount(entries)
  {
    RowDatesCard(rows);
    SpreadVolumeTotal(rows, entries);
    SpreadIsDaySum(rows, entries);
  }

  lemma {:induction false} SpreadIsDaySum(rows: seq<DayVolume>, entries: seq<FlatLog>)
    requires forall i :: 0 <= i < |rows| ==> rows[i].volumeKgReps == VolumeOn(entries, rows[i].date)
    ensures SpreadVolume(rows, entries) == DaySum(rows)
  {
    if |rows| > 0 {
      var prefix := rows[..|rows| - 1];
      assert forall i :: 0 <= i < |prefix| ==> prefix[i] == rows[i];
      SpreadIsDaySum(prefix, entries);
    }
  }

  /** `byDayVolumeKg`: accumulates each date's volume in a map whose keys
      keep first-insertion order, then sorts the rows by date. The result
      has one row per workout day, strictly ascending by date, each carrying
      that day's volume; the rows sum to the total volume. */
  method ByDayVolumeKg(entries: seq<FlatLog>) returns (rows: seq<DayVolume>)
    ensures forall i, j :: 0 <= i < j < |rows| ==> rows[i].date < rows[j].date
    ensures RowDates(rows) == DateSet(entries)
    ensures forall i :: 0 <= i < |rows| ==> rows[i].volumeKgReps == VolumeOn(entries, rows[i].date)
    ensures |rows| == WorkoutDaysCount(entries)
    ensures DaySum(rows) == TotalVolumeKg(entries)
  {
    var volumes: map<int, real> := map[];
    var order: seq<int> := [];
    for k := 0 to |entries|
      invariant forall d :: d in volumes <==> d in DateSet(entries[..k])
      invariant forall d :: d in volumes ==> volumes[d] == VolumeOn(entries[..k], d)
      invariant forall d :: d in order <==> d in volumes
      invariant forall i, j :: 0 <= i < j < |order| ==> order[i] != order[j]
    {
      assert entries[..k + 1][..k] == entries[..k];
      DateSetSnoc(entries[..k + 1]);
      assert forall d :: VolumeOn(entries[..k + 1], d)
                      == VolumeOn(entries[..k], d) + (if entries[k].isoDate == d then FlatLoad(entries[k]) else 0.0);
      var e := entries[k];
      var key := e.isoDate;
      if key !in volumes {
        VolumeOnUnlogged(entries[..k], key);
        order := order + [key];
      }
      var prev := if key in volumes then volumes[key] else 0.0;
      volumes := volumes[key := prev + FlatLoad(e)];
    }
    assert entries[..|entries|] == entries;
    assert forall d :: d in order <==> d in volumes;
    forall i | 0 <= i < |order| ensures order[i] in volumes {
      assert order[i] in order;
    }
    var unsorted := seq(|order|, i requires 0 <= i < |order| => DayVolume(order[i], volumes[order[i]]));
    rows := SortBy(unsorted, DayKey);
    SortedRowsOfDayMap(entries, volumes, order, unsorted);
  }

  /** Sorting rows with distinct dates by date orders them strictly and keeps exactly the same rows. */
  lemma SortDistinctRows(unsorted: seq<DayVolume>)
    requires DistinctBy(unsorted, DateOf)
    ensures var rows := SortBy(unsorted, DayKey);
            && DistinctBy(rows, DateOf)
            && (forall i, j :: 0 <= i < j < |rows| ==> rows[i].date < rows[j].date)
            && (forall x :: x in rows <==> x in unsorted)
  {
    var rows := SortBy(unsorted, DayKey);
    SortByKeepsDistinct(unsorted, DayKey, DateOf);
    forall x ensures x in rows <==> x in unsorted {
      assert x in rows <==> x in multiset(rows);
      assert x in unsorted <==> x in multiset(unsorted);
    }
    forall i, j | 0 <= i < j < |rows| ensures rows[i].date < rows[j].date {
      assert KeyLeq(DayKey(rows[i]), DayKey(rows[j]));
      assert DateOf(rows[i]) != DateOf(rows[j]);
    }
  }

  /** The rows built from the finished day map, once sorted, meet
      `ByDayVolumeKg`'s contract. */
  lemma SortedRowsOfDayMap(entries: seq<FlatLog>, volumes: map<int, real>, order: seq<int>, unsorted: seq<DayVolume>)
    requires forall d :: d in volumes <==> d in DateSet(entries)
    requires forall d :: d in volumes ==> volumes[d] == VolumeOn(entries, d)
    requires forall d :: d in order <==> d in volumes
    requires forall i, j :: 0 <= i < j < |order| ==> order[i] != order[j]
    requires |unsorted| == |order|
    requires forall i :: 0 <= i < |order| ==> order[i] in volumes && unsorted[i] == DayVolume(order[i], volumes[order[i]])
    ensures var rows := SortBy(unsorted, DayKey);
            && (forall i, j :: 0 <= i < j < |rows| ==> rows[i].date < rows[j].date)
            && RowDates(rows) == DateSet(entries)
            && (forall i :: 0 <= i < |rows| ==> rows[i].volumeKgReps == VolumeOn(entries, rows[i].date))
            && |rows| == WorkoutDaysCount(entries)
            && DaySum(rows) == TotalVolumeKg(entries)
  {
    var rows := SortBy(unsorted, DayKey);
    assert DistinctBy(unsorted, DateOf);
    SortDistinctRows(unsorted);
    SameRowsSameDates(entries, volumes, order, unsorted, rows);
    SameRowsSameVolumes(entries, volumes, order, unsorted, rows);
    ByDayAgreesWithTotals(rows, entries);
  }

  /** Any arrangement of the day map's rows carries exactly the logged dates. */
  lemma SameRowsSameDates(entries: seq<FlatLog>, volumes: map<int, real>, order: seq<int>,
                          unsorted: seq<DayVolume>, rows: seq<DayVolume>)
    requires forall d :: d in volumes <==> d in DateSet(entries)
    requires forall d :: d in order <==> d in volumes
    requires |unsorted| == |order|
    requires forall i :: 0 <= i < |order| ==> order[i] in volumes && unsorted[i] == DayVolume(order[i], volumes[order[i]])
    requires forall x :: x in rows <==> x in unsorted
    ensures RowDates(rows) == DateSet(entries)
  {
    forall d ensures d in RowDates(rows) <==> d in DateSet(entries) {
      if d in RowDates(rows) {
        var i :| 0 <= i < |rows| && rows[i].date == d;
        assert rows[i] in unsorted;
      }
      if d in DateSet(entries) {
        var j :| 0 <= j < |order| && order[j] == d;
        assert unsorted[j] in rows;
      }
    }
  }

  /** Any arrangement of the day map's rows carries each date's volume. */
  lemma SameRowsSameVolumes(entries: seq<FlatLog>, volumes: map<int, real>, order: seq<int>,
                            unsorted: seq<DayVolume>, rows: seq<DayVolume>)
    requires forall d :: d in volumes ==> volumes[d] == VolumeOn(entries, d)
    requires |unsorted| == |order|
    requires forall i :: 0 <= i < |order| ==> order[i] in volumes && unsorted[i] == DayVolume(order[i], volumes[order[i]])
    requires forall x :: x in rows <==> x in unsorted
    ensures forall i :: 0 <= i < |rows| ==> rows[i].volumeKgReps == VolumeOn(entries, rows[i].date)
  {
    forall i | 0 <= i < |rows| ensures rows[i].volumeKgReps == VolumeOn(entries, rows[i].date) {
      assert rows[i] in unsorted;
    }
  }
}
