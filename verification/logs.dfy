/** The set-log store (src/lib/logs.ts): a map from exercise id to that
    exercise's logged sets, with append, patch-by-id and delete-by-id, the
    chronological listing, and the two history queries the gate consumes.
    The persisted JSON document becomes the `store` field of `LogStore`;
    ids and `Date.now()` become caller-supplied parameters. */
module Logs {
  import opened Seqs
  import opened Types

  type Store = map<string, seq<SetEntryLog>>

  /** The rows of one exercise; an exercise never logged has none. */
  function RowsOf(s: Store, ex: string): seq<SetEntryLog> {
    if ex in s then s[ex] else []
  }

  /** `sortChronoAsc` as a sort key: the date, then `createdAt` within a date. */
  function ChronoKey(r: SetEntryLog): Key {
    Key(r.isoDate, r.createdAt)
  }

  /** `listSetsAsc`: the exercise's rows as a chronologically ascending
      permutation; empty for an unknown exercise. */
  function ListSetsAsc(s: Store, ex: string): (r: seq<SetEntryLog>)
    ensures multiset(r) == multiset(RowsOf(s, ex))
    ensures forall i, j :: 0 <= i < j < |r| ==>
              r[i].isoDate < r[j].isoDate || (r[i].isoDate == r[j].isoDate && r[i].createdAt <= r[j].createdAt)
    ensures ex !in s ==> r == []
  {
    SortBy(RowsOf(s, ex), ChronoKey)
  }

  /** Rows with the same date and `createdAt` (as the migration of legacy
      rows produces) keep their stored order in the listing. */
  lemma ListSetsAscStable(s: Store, ex: string, k: Key, p: SetEntryLog -> bool)
    requires forall y :: p(y) <==> ChronoKey(y) == k
    ensures Filter(ListSetsAsc(s, ex), p) == Filter(RowsOf(s, ex), p)
  {
    SortByStable(RowsOf(s, ex), ChronoKey, k, p);
  }

  /** The store after `addSet` appends `row` to `ex`. */
  function Appended(s: Store, ex: string, row: SetEntryLog): (r: Store)
    ensures ex in r && RowsOf(r, ex) == RowsOf(s, ex) + [row]
    ensures forall e :: e != ex ==> (e in r <==> e in s) && RowsOf(r, e) == RowsOf(s, e)
    ensures multiset(ListSetsAsc(r, ex)) == multiset(ListSetsAsc(s, ex)) + multiset{row}
  {
    s[ex := RowsOf(s, ex) + [row]]
  }

  /** The fields `updateSet` may change; an absent field is kept. */
  datatype SetPatch = SetPatch(isoDate: Option<int>, weightKg: Option<real>, reps: Option<real>)

  /** `{ ...row, ...patch }`: the patched fields replaced, `id` and `createdAt` kept. */
  function Patched(row: SetEntryLog, p: SetPatch): (r: SetEntryLog)
    ensures r.id == row.id && r.createdAt == row.createdAt
    ensures r.isoDate == (if p.isoDate.Some? then p.isoDate.value else row.isoDate)
    ensures r.weightKg == (if p.weightKg.Some? then p.weightKg.value else row.weightKg)
    ensures r.reps == (if p.reps.Some? then p.reps.value else row.reps)
  {
    SetEntryLog(row.id,
                if p.isoDate.Some? then p.isoDate.value else row.isoDate,
                if p.weightKg.Some? then p.weightKg.value else row.weightKg,
                if p.reps.Some? then p.reps.value else row.reps,
                row.createdAt)
  }

  predicate HasId(id: string, x: SetEntryLog) {
    x.id == id
  }

  /** The store after `updateSet`: only the first row of `ex` carrying `id`
      is patched, the list keeps its length, other exercises are untouched,
      and with no such row nothing is written. */
  function Updated(s: Store, ex: string, id: string, p: SetPatch): (r: Store)
    ensures forall e :: e != ex ==> (e in r <==> e in s) && RowsOf(r, e) == RowsOf(s, e)
    ensures |RowsOf(r, ex)| == |RowsOf(s, ex)|
    ensures forall k :: 0 <= k < |RowsOf(s, ex)| ==>
              RowsOf(r, ex)[k] ==
                if RowsOf(s, ex)[k].id == id && forall j :: 0 <= j < k ==> RowsOf(s, ex)[j].id != id
                then Patched(RowsOf(s, ex)[k], p)
                else RowsOf(s, ex)[k]
    ensures (forall x :: x in RowsOf(s, ex) ==> x.id != id) ==> r == s
  {
    var rows := RowsOf(s, ex);
    var i := FindIndex(rows, x => HasId(id, x));
    if i >= 0 then s[ex := rows[i := Patched(rows[i], p)]] else s
  }

  /** The store after `removeSet`: every row of `ex` carrying `id` is
      dropped, the rest keep their order (`Filter`), and the key `ex` is
      written even when it was absent. */
  function Removed(s: Store, ex: string, id: string): (r: Store)
    ensures ex in r
    ensures forall e :: e != ex ==> (e in r <==> e in s) && RowsOf(r, e) == RowsOf(s, e)
    ensures forall x :: x in RowsOf(r, ex) <==> x in RowsOf(s, ex) && x.id != id
    ensures forall x: SetEntryLog :: x.id != id ==> multiset(RowsOf(r, ex))[x] == multiset(RowsOf(s, ex))[x]
    ensures RowsOf(r, ex) == Filter(RowsOf(s, ex), x => !HasId(id, x))
  {
    s[ex := Filter(RowsOf(s, ex), x => !HasId(id, x))]
  }

  /** Index of the last row dated on or before `date` (inclusive), or -1. */
  function LastIndexOnOrBefore(s: seq<SetEntryLog>, date: int): (i: int)
    ensures -1 <= i < |s|
    ensures 0 <= i ==> s[i].isoDate <= date
    ensures forall j :: i < j < |s| ==> s[j].isoDate > date
  {
    if |s| == 0 then -1
    else if s[|s| - 1].isoDate <= date then |s| - 1
    else LastIndexOnOrBefore(s[..|s| - 1], date)
  }

  /** The last index on or before `date` is the only index with no later
      row on or before `date`. */
  lemma LastIndexOnly(s: seq<SetEntryLog>, date: int, i: int)
    requires -1 <= i < |s|
    requires 0 <= i ==> s[i].isoDate <= date
    requires forall j :: i < j < |s| ==> s[j].isoDate > date
    ensures LastIndexOnOrBefore(s, date) == i
  {
  }

  /** In a chronological listing the last row on or before `date` is the
      chronologically greatest such row. */
  lemma LastIndexIsLatest(s: seq<SetEntryLog>, date: int)
    requires SortedBy(s, ChronoKey)
    ensures var i := LastIndexOnOrBefore(s, date);
            forall j :: 0 <= j < |s| && s[j].isoDate <= date ==>
              0 <= i && KeyLeq(ChronoKey(s[j]), ChronoKey(s[i]))
  {
  }

  /** A set's load, weight × reps. */
  function Load(x: SetEntryLog): real {
    x.weightKg * x.reps
  }

  /** `bestBefore`'s candidate pool: the rows in the `weeks`-week window
      ending at `date` (both ends inclusive), or, when that window is empty,
      every row on or before `date`. */
  function Candidates(all: seq<SetEntryLog>, date: int, weeks: int): (c: seq<SetEntryLog>)
    ensures forall x :: x in c ==> x in all && x.isoDate <= date
    ensures |c| == 0 <==> forall x :: x in all ==> x.isoDate > date
    ensures (exists x :: x in all && date - 7 * weeks <= x.isoDate <= date) ==>
              forall x :: x in c <==> x in all && date - 7 * weeks <= x.isoDate <= date
    ensures (exists x :: x in all && date - 7 * weeks <= x.isoDate <= date) ==>
              c == Filter(all, (x: SetEntryLog) => date - 7 * weeks <= x.isoDate <= date)
    ensures (forall x :: x in all ==> !(date - 7 * weeks <= x.isoDate <= date)) ==>
              c == Filter(all, (x: SetEntryLog) => x.isoDate <= date)
  {
    var pool := Filter(all, (x: SetEntryLog) => date - 7 * weeks <= x.isoDate <= date);
    if |pool| > 0 then pool
    else
      assert forall x :: x in all ==> !(date - 7 * weeks <= x.isoDate <= date);
      Filter(all, (x: SetEntryLog) => x.isoDate <= date)
  }

  /** The reference set `bestBefore` reports for a candidate. */
  function AsLastBest(x: SetEntryLog): LastBest {
    LastBest(x.weightKg, x.reps, x.isoDate)
  }

  /** The chronological listing holds exactly the exercise's rows. */
  lemma ListSetsAscMembers(s: Store, ex: string)
    ensures forall x :: x in ListSetsAsc(s, ex) <==> x in RowsOf(s, ex)
  {
    var r := ListSetsAsc(s, ex);
    forall x ensures x in r <==> x in RowsOf(s, ex) {
      assert x in r <==> x in multiset(r);
      assert x in RowsOf(s, ex) <==> x in multiset(RowsOf(s, ex));
    }
  }

  /** `lastSetBefore` returns null exactly when every row of the exercise is
      dated after `date`. */
  lemma LastSetNoneIff(s: Store, ex: string, date: int)
    ensures LastIndexOnOrBefore(ListSetsAsc(s, ex), date) < 0
        <==> forall x :: x in RowsOf(s, ex) ==> x.isoDate > date
  {
    ListSetsAscMembers(s, ex);
  }

  /** `bestBefore` returns null exactly when every row of the exercise is
      dated after `date`, whatever the window. */
  lemma BestBeforeNoneIff(s: Store, ex: string, date: int, weeks: int)
    ensures ArgMax(Candidates(ListSetsAsc(s, ex), date, weeks), Load) < 0
        <==> forall x :: x in RowsOf(s, ex) ==> x.isoDate > date
  {
    ListSetsAscMembers(s, ex);
  }

  /** The scan of `bestBefore` over its candidates: a row replaces the
      running best only when its load is strictly greater, so the scan ends
      on the first row of greatest load, and on none when there is no row. */
  method HeaviestOf(candidates: seq<SetEntryLog>) returns (best: Option<SetEntryLog>)
    ensures var i := ArgMax(candidates, Load);
            best == if i < 0 then None else Some(candidates[i])
  {
    best := None;
    var bestLoad := 0.0;
    ghost var bi := -1;
    for k := 0 to |candidates|
      invariant bi == ArgMax(candidates[..k], Load)
      invariant bi < 0 ==> best.None?
      invariant bi >= 0 ==> best == Some(candidates[bi]) && bestLoad == Load(candidates[bi])
    {
      ArgMaxStep(candidates, k, Load);
      var load := Load(candidates[k]);
      if best.None? || load > bestLoad {
        best := Some(candidates[k]);
        bestLoad := load;
        bi := k;
      }
    }
    assert candidates[..|candidates|] == candidates;
  }

  class LogStore {
    var store: Store

    constructor ()
      ensures store == map[]
    {
      store := map[];
    }

    /** `addSet`: appends one row with the caller's fresh id and creation time. */
    method AddSet(ex: string, isoDate: int, weightKg: real, reps: real, id: string, now: int)
      returns (row: SetEntryLog)
      requires forall x :: x in RowsOf(store, ex) ==> x.id != id
      modifies this
      ensures row == SetEntryLog(id, isoDate, weightKg, reps, now)
      ensures store == Appended(old(store), ex, row)
    {
      row := SetEntryLog(id, isoDate, weightKg, reps, now);
      var arr := RowsOf(store, ex);
      arr := arr + [row];
      store := store[ex := arr];
    }

    /** `updateSet`. */
    method UpdateSet(ex: string, id: string, patch: SetPatch)
      modifies this
      ensures store == Updated(old(store), ex, id, patch)
    {
      var arr := RowsOf(store, ex);
      var i := FindIndex(arr, x => HasId(id, x));
      if i >= 0 {
        arr := arr[i := Patched(arr[i], patch)];
        store := store[ex := arr];
      }
    }

    /** `removeSet`. */
    method RemoveSet(ex: string, id: string)
      modifies this
      ensures store == Removed(old(store), ex, id)
    {
      var arr := Filter(RowsOf(store, ex), x => !HasId(id, x));
      store := store[ex := arr];
    }

    /** `lastSetBefore`: scans the chronological listing from its end for
        the first row dated on or before `date` (see `LastSetNoneIff` and
        `LastIndexIsLatest` for what that row is). */
    method LastSetBefore(ex: string, date: int) returns (r: Option<SetEntryLog>)
      ensures var all := ListSetsAsc(store, ex);
              var i := LastIndexOnOrBefore(all, date);
              r == if i < 0 then None else Some(all[i])
    {
      var all := ListSetsAsc(store, ex);
      var i := |all| - 1;
      while i >= 0
        invariant -1 <= i < |all|
        invariant forall j :: i < j < |all| ==> all[j].isoDate > date
      {
        if all[i].isoDate <= date {
          LastIndexOnly(all, date, i);
          return Some(all[i]);
        }
        i := i - 1;
      }
      LastIndexOnly(all, date, -1);
      return None;
    }

    /** `bestBefore`: among the candidates, the first row of greatest load
        (see `BestBeforeNoneIff` for when there is none). */
    method BestBefore(ex: string, date: int, weeks: int := 6) returns (r: Option<LastBest>)
      ensures var c := Candidates(ListSetsAsc(store, ex), date, weeks);
              var i := ArgMax(c, Load);
              r == if i < 0 then None else Some(AsLastBest(c[i]))
    {
      var all := ListSetsAsc(store, ex);
      var candidates := Candidates(all, date, weeks);
      var best := HeaviestOf(candidates);
      r := if best.Some? then Some(AsLastBest(best.value)) else None;
    }
  }
}
