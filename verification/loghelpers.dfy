/** Helpers of the workout log page (src/app/log/logHelpers.ts): the
    elapsed-time label and the choice of which day's sets a session summary
    shows. The log store and "today" are inputs. */
module LogHelpers {
  import opened Seqs
  import opened Types
  import opened Text
  import Logs
  import Templates

  /** `Math.max(0, Math.floor(ms / 1000))`. */
  function WholeSeconds(ms: real): (s: nat)
    ensures ms >= 0.0 ==> s as real <= ms / 1000.0 < s as real + 1.0
    ensures ms < 1000.0 ==> s == 0
  {
    var f := (ms / 1000.0).Floor;
    if f < 0 then 0 else f
  }

  /** `fmtDuration`: minutes and seconds of the elapsed time, the minutes
      at least two digits, the seconds two digits below 60. */
  function FmtDuration(ms: real): (r: string)
    ensures ShowsSeconds(r, WholeSeconds(ms))
  {
    MmSs(WholeSeconds(ms))
  }

  /** A negative duration shows as "00:00". */
  lemma FmtDurationNegative(ms: real)
    requires ms < 0.0
    ensures FmtDuration(ms) == "00:00"
  {
    MmSsZero();
  }

  /** A logged row as the summary lists it. */
  function Saved(exId: string, row: SetEntryLog): SavedSet {
    SavedSet(exId, row.isoDate, row.weightKg, row.reps)
  }

  /** The rows of one exercise dated `d`, in their order. */
  function RowsOn(exId: string, rows: seq<SetEntryLog>, d: int): (r: seq<SavedSet>)
    ensures forall x :: x in r ==> x.isoDate == d && x.exerciseId == exId
  {
    if |rows| == 0 then []
    else
      RowsOn(exId, rows[..|rows| - 1], d) + (if rows[|rows| - 1].isoDate == d then [Saved(exId, rows[|rows| - 1])] else [])
  }

  /** An exercise has sets on `d` exactly when one of its rows is dated `d`. */
  lemma {:induction false} RowsOnNonEmpty(exId: string, rows: seq<SetEntryLog>, d: int)
    ensures |RowsOn(exId, rows, d)| > 0 <==> exists i :: 0 <= i < |rows| && rows[i].isoDate == d
  {
    if |rows| > 0 {
      var prefix := rows[..|rows| - 1];
      RowsOnNonEmpty(exId, prefix, d);
      assert forall i :: 0 <= i < |prefix| ==> prefix[i] == rows[i];
    }
  }

  /** The template's sets dated `d`: exercise by exercise in template
      order, each exercise's rows in chronological order. */
  function SetsOn(exs: seq<Templates.Exercise>, store: Logs.Store, d: int): (r: seq<SavedSet>)
    ensures forall x :: x in r ==> x.isoDate == d
  {
    if |exs| == 0 then []
    else
      SetsOn(exs[..|exs| - 1], store, d)
        + RowsOn(exs[|exs| - 1].id, Logs.ListSetsAsc(store, exs[|exs| - 1].id), d)
  }

  /** The dates on which any of the template's exercises has a set. */
  function LoggedDates(exs: seq<Templates.Exercise>, store: Logs.Store): set<int> {
    if |exs| == 0 then {}
    else
      var rows := Logs.ListSetsAsc(store, exs[|exs| - 1].id);
      LoggedDates(exs[..|exs| - 1], store) + set i | 0 <= i < |rows| :: rows[i].isoDate
  }

  /** A date has sets exactly when it is a logged date. */
  lemma {:induction false} SetsOnNonEmpty(exs: seq<Templates.Exercise>, store: Logs.Store, d: int)
    ensures |SetsOn(exs, store, d)| > 0 <==> d in LoggedDates(exs, store)
  {
    if |exs| > 0 {
      SetsOnNonEmpty(exs[..|exs| - 1], store, d);
      var rows := Logs.ListSetsAsc(store, exs[|exs| - 1].id);
      var r := RowsOn(exs[|exs| - 1].id, rows, d);
      RowsOnNonEmpty(exs[|exs| - 1].id, rows, d);
      assert |r| > 0 <==> d in (set i | 0 <= i < |rows| :: rows[i].isoDate);
    }
  }

  /** `byDate.get(d) ?? []`. */
  function Get(byDate: map<int, seq<SavedSet>>, d: int): seq<SavedSet> {
    if d in byDate then byDate[d] else []
  }

  function DayKey(d: int): Key {
    Key(d, 0)
  }

  /** `gatherSessionSetsFor`: with no template, nothing. Otherwise the date
      shown is `None` exactly when none of the template's exercises has a
      set; it is `today` when `preferToday` holds and today has sets, and the
      latest logged date otherwise; the sets are exactly the template's sets
      on that date, in template order and then chronologically. */
  method GatherSessionSetsFor(template: Option<Templates.Template>, preferToday: bool, today: int, store: Logs.Store)
    returns (sets: seq<SavedSet>, date: Option<int>)
    ensures template.None? ==> sets == [] && date.None?
    ensures template.Some? ==>
              var exs := template.value.exercises;
              && (date.None? <==> LoggedDates(exs, store) == {})
              && (date.None? ==> sets == [])
              && (date.Some? ==>
                    && date.value in LoggedDates(exs, store)
                    && (preferToday && today in LoggedDates(exs, store) ==> date.value == today)
                    && (!(preferToday && today in LoggedDates(exs, store)) ==>
                          forall d :: d in LoggedDates(exs, store) ==> d <= date.value)
                    && sets == SetsOn(exs, store, date.value))
  {
    if template.None? {
      return [], None;
    }
    var exs := template.value.exercises;
    var byDate, order := CollectByDate(exs, store);
    var dates := SortBy(order, DayKey);
    if |dates| == 0 {
      assert |order| == 0;
      forall d | d in LoggedDates(exs, store) ensures d in order {
      }
      return [], None;
    }
    var pick := if preferToday && today in byDate then today else dates[|dates| - 1];
    LastIsLatest(order, dates);
    return Get(byDate, pick), Some(pick);
  }

  /** The nested loops of `gatherSessionSetsFor`: every logged date of the
      template's exercises keyed to its sets, and the keys in insertion order. */
  method CollectByDate(exs: seq<Templates.Exercise>, store: Logs.Store)
    returns (byDate: map<int, seq<SavedSet>>, order: seq<int>)
    ensures forall d :: Get(byDate, d) == SetsOn(exs, store, d)
    ensures forall d :: d in byDate <==> d in LoggedDates(exs, store)
    ensures forall d :: d in order <==> d in byDate
  {
    byDate := map[];
    order := [];
    for i := 0 to |exs|
      invariant forall d :: Get(byDate, d) == SetsOn(exs[..i], store, d)
      invariant forall d :: d in byDate ==> |byDate[d]| > 0
      invariant forall d :: d in order <==> d in byDate
    {
      byDate, order := AddRows(byDate, order, exs[i].id, Logs.ListSetsAsc(store, exs[i].id));
      assert exs[..i + 1][..i] == exs[..i];
    }
    assert exs[..|exs|] == exs;
    forall d ensures d in byDate <==> d in LoggedDates(exs, store) {
      SetsOnNonEmpty(exs, store, d);
    }
  }

  /** The inner loop: appends each row of one exercise to the list of its date. */
  method AddRows(byDate0: map<int, seq<SavedSet>>, order0: seq<int>, exId: string, rows: seq<SetEntryLog>)
    returns (byDate: map<int, seq<SavedSet>>, order: seq<int>)
    requires forall d :: d in byDate0 ==> |byDate0[d]| > 0
    requires forall d :: d in order0 <==> d in byDate0
    ensures forall d :: Get(byDate, d) == Get(byDate0, d) + RowsOn(exId, rows, d)
    ensures forall d :: d in byDate ==> |byDate[d]| > 0
    ensures forall d :: d in order <==> d in byDate
  {
    byDate, order := byDate0, order0;
    for j := 0 to |rows|
      invariant forall d :: Get(byDate, d) == Get(byDate0, d) + RowsOn(exId, rows[..j], d)
      invariant forall d :: d in byDate ==> |byDate[d]| > 0
      invariant forall d :: d in order <==> d in byDate
    {
      var row := rows[j];
      var arr := Get(byDate, row.isoDate);
      arr := arr + [Saved(exId, row)];
      AddRowStep(byDate, byDate0, exId, rows, j);
      KeysStep(byDate, order, row.isoDate, arr);
      if row.isoDate !in byDate {
        order := order + [row.isoDate];
      }
      byDate := byDate[row.isoDate := arr];
    }
    assert rows[..|rows|] == rows;
  }

  /** Keying a non-empty list keeps every list non-empty and `order`
      listing exactly the keys. */
  lemma KeysStep(byDate: map<int, seq<SavedSet>>, order: seq<int>, d: int, arr: seq<SavedSet>)
    requires forall k :: k in byDate ==> |byDate[k]| > 0
    requires forall k :: k in order <==> k in byDate
    requires |arr| > 0
    ensures var next := byDate[d := arr];
            forall k :: k in next ==> |next[k]| > 0
    ensures var order' := if d in byDate then order else order + [d];
            forall k :: k in order' <==> k in byDate[d := arr]
  {
  }

  /** One pass of the inner loop keeps its invariant. */
  lemma AddRowStep(prev: map<int, seq<SavedSet>>, byDate0: map<int, seq<SavedSet>>, exId: string,
                   rows: seq<SetEntryLog>, j: int)
    requires 0 <= j < |rows|
    requires forall d :: Get(prev, d) == Get(byDate0, d) + RowsOn(exId, rows[..j], d)
    ensures var next := prev[rows[j].isoDate := Get(prev, rows[j].isoDate) + [Saved(exId, rows[j])]];
            forall d :: Get(next, d) == Get(byDate0, d) + RowsOn(exId, rows[..j + 1], d)
  {
    var next := prev[rows[j].isoDate := Get(prev, rows[j].isoDate) + [Saved(exId, rows[j])]];
    forall d ensures Get(next, d) == Get(byDate0, d) + RowsOn(exId, rows[..j + 1], d) {
      AddRowStepAt(prev, byDate0, exId, rows, j, d);
    }
  }

  lemma AddRowStepAt(prev: map<int, seq<SavedSet>>, byDate0: map<int, seq<SavedSet>>, exId: string,
                     rows: seq<SetEntryLog>, j: int, d: int)
    requires 0 <= j < |rows|
    requires Get(prev, d) == Get(byDate0, d) + RowsOn(exId, rows[..j], d)
    ensures var next := prev[rows[j].isoDate := Get(prev, rows[j].isoDate) + [Saved(exId, rows[j])]];
            Get(next, d) == Get(byDate0, d) + RowsOn(exId, rows[..j + 1], d)
  {
    RowsOnSnoc(exId, rows, j, d);
  }

  lemma RowsOnSnoc(exId: string, rows: seq<SetEntryLog>, j: int, d: int)
    requires 0 <= j < |rows|
    ensures RowsOn(exId, rows[..j + 1], d)
         == RowsOn(exId, rows[..j], d) + (if rows[j].isoDate == d then [Saved(exId, rows[j])] else [])
  {
    assert rows[..j + 1][..j] == rows[..j];
  }

  /** The last of the sorted dates is the greatest date. */
  lemma LastIsLatest(order: seq<int>, dates: seq<int>)
    requires dates == SortBy(order, DayKey) && |dates| > 0
    ensures dates[|dates| - 1] in order
    ensures forall d :: d in order ==> d <= dates[|dates| - 1]
  {
    assert dates[|dates| - 1] in multiset(dates);
    forall d | d in order ensures d <= dates[|dates| - 1] {
      assert d in multiset(dates);
      var k :| 0 <= k < |dates| && dates[k] == d;
      if k < |dates| - 1 {
        assert KeyLeq(DayKey(dates[k]), DayKey(dates[|dates| - 1]));
      }
    }
  }
}
