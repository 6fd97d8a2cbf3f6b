/** Weigh-ins (src/lib/weighIns.ts): a list kept at one entry per date and
    sorted by date, its tail, and the on-track traffic light that compares
    the recent rate of change with the rate the goal needs. The stored list
    and the profile fields are inputs; dates are day numbers. */
module WeighIns {
  import opened Seqs
  import opened Types
  import opened JsMath

  function DateOf(w: WeighIn): int {
    w.isoDate
  }

  function DateKey(w: WeighIn): Key {
    Key(w.isoDate, 0)
  }

  /** `addWeighIn`: drop every entry on the new entry's date, append the
      entry, sort by date. */
  function AddWeighIn(all: seq<WeighIn>, entry: WeighIn): (r: seq<WeighIn>)
    ensures entry in r && multiset(r)[entry] == 1
    ensures forall x :: x in r && x.isoDate == entry.isoDate ==> x == entry
    ensures forall x :: x in r <==> x == entry || (x in all && x.isoDate != entry.isoDate)
    ensures forall x: WeighIn :: x.isoDate != entry.isoDate ==> multiset(r)[x] == multiset(all)[x]
    ensures forall i, j :: 0 <= i < j < |r| ==> r[i].isoDate <= r[j].isoDate
  {
    var kept := Filter(all, (w: WeighIn) => w.isoDate != entry.isoDate);
    var r := SortBy(kept + [entry], DateKey);
    assert forall x :: x in r <==> x in multiset(kept + [entry]);
    r
  }

  /** A list with one entry per date keeps that shape under `addWeighIn`. */
  lemma AddWeighInKeepsDistinct(all: seq<WeighIn>, entry: WeighIn)
    requires DistinctBy(all, DateOf)
    ensures DistinctBy(AddWeighIn(all, entry), DateOf)
  {
    var p := (w: WeighIn) => w.isoDate != entry.isoDate;
    var kept := Filter(all, p);
    FilterKeepsDistinct(all, p, DateOf);
    var s := kept + [entry];
    forall i, j | 0 <= i < j < |s| ensures DateOf(s[i]) != DateOf(s[j]) {
      assert s[i] == kept[i] && s[i] in kept;
      if j < |kept| { assert s[j] == kept[j]; }
    }
    SortByKeepsDistinct(s, DateKey, DateOf);
  }

  /** Adding twice on one date keeps only the second entry for that date. */
  lemma AddWeighInOverwrites(all: seq<WeighIn>, e1: WeighIn, e2: WeighIn)
    requires e1.isoDate == e2.isoDate
    ensures var r := AddWeighIn(AddWeighIn(all, e1), e2);
            (e1 != e2 ==> e1 !in r) && e2 in r
  {
  }

  /** `lastN(n)`, i.e. `slice(-n)`: for `n >= 1` the last `min(n, |all|)`
      entries; `-0` is `0`, so `lastN(0)` is the whole list; a negative `n`
      drops the first `-n` entries. */
  function LastN(all: seq<WeighIn>, n: int): (r: seq<WeighIn>)
    ensures |r| <= |all| && all == all[..|all| - |r|] + r
    ensures n >= 1 ==> |r| == if n < |all| then n else |all|
    ensures n == 0 ==> r == all
    ensures n < 0 ==> |r| == if -n < |all| then |all| + n else 0
  {
    var start := if n > 0 then (if n < |all| then |all| - n else 0)
                 else if -n < |all| then -n else |all|;
    all[start..]
  }

  /** The traffic light of `onTrackStatus`: red beyond 0.22 kg/week off
      target, amber beyond 0.11, green otherwise. */
  function Classify(diff: real): (s: TrackStatus)
    ensures s == Red <==> diff > 0.22
    ensures s == Amber <==> 0.11 < diff <= 0.22
    ensures s == Green <==> diff <= 0.11
  {
    if diff > 0.22 then Red else if diff > 0.11 then Amber else Green
  }

  function Severity(s: TrackStatus): nat {
    match s
    case Green => 0
    case Amber => 1
    case Red => 2
  }

  /** A larger miss is never judged better. */
  lemma ClassifyMonotone(d1: real, d2: real)
    requires d1 <= d2
    ensures Severity(Classify(d1)) <= Severity(Classify(d2))
  {
  }

  /** `weeksBetween` on day numbers (the local-midnight `Date` arithmetic
      is not part of this model). */
  function WeeksBetween(a: int, b: int): real {
    (b - a) as real / 7.0
  }

  /** The rate (kg/week) between the last two weigh-ins, over at least a
      day's worth of weeks. */
  function ActualPerWeek(prev: WeighIn, latest: WeighIn): real {
    (latest.weightKg - prev.weightKg) / Max(WeeksBetween(prev.isoDate, latest.isoDate), 1.0 / 7.0)
  }

  /** The rate (kg/week) still needed from the latest weigh-in to the goal,
      over at least 0.01 weeks. */
  function NeededPerWeek(latest: WeighIn, goalWeightKg: real, goalDate: int): real {
    (goalWeightKg - latest.weightKg) / Max(WeeksBetween(latest.isoDate, goalDate), 0.01)
  }

  /** `onTrackStatus` without its message: nothing without a goal date,
      a current weight and a goal weight, or with fewer than two weigh-ins;
      otherwise the light for how far the recent rate is from the needed
      one. */
  function OnTrackStatus(goalDate: Option<int>, weightKg: Option<real>, goalWeightKg: Option<real>,
                         data: seq<WeighIn>): (r: Option<TrackStatus>)
    ensures r.None? <==> goalDate.None? || weightKg.None? || goalWeightKg.None? || |data| < 2
    ensures r.Some? ==>
              var latest := data[|data| - 1];
              var prev := data[|data| - 2];
              var diff := Abs(ActualPerWeek(prev, latest) - NeededPerWeek(latest, goalWeightKg.value, goalDate.value));
              (r.value == Red <==> diff > 0.22) && (r.value == Green <==> diff <= 0.11)
  {
    if goalDate.None? || weightKg.None? || goalWeightKg.None? then None
    else if |data| < 2 then None
    else
      var latest := data[|data| - 1];
      var prev := data[|data| - 2];
      Some(Classify(Abs(ActualPerWeek(prev, latest) - NeededPerWeek(latest, goalWeightKg.value, goalDate.value))))
  }

  /** Only the last two weigh-ins matter: earlier history never changes the light. */
  lemma OnTrackUsesLastTwo(goalDate: Option<int>, weightKg: Option<real>, goalWeightKg: Option<real>,
                           older: seq<WeighIn>, prev: WeighIn, latest: WeighIn)
    ensures OnTrackStatus(goalDate, weightKg, goalWeightKg, older + [prev, latest])
         == OnTrackStatus(goalDate, weightKg, goalWeightKg, [prev, latest])
  {
    var d := older + [prev, latest];
    assert d[|d| - 1] == latest && d[|d| - 2] == prev;
  }

  /** Reaching the goal weight on schedule at the rate already shown is green. */
  lemma OnPaceIsGreen(goalDate: int, weightKg: real, prev: WeighIn, latest: WeighIn)
    requires latest.isoDate - prev.isoDate >= 1 && goalDate - latest.isoDate >= 1
    ensures var goal := latest.weightKg + ActualPerWeek(prev, latest) * WeeksBetween(latest.isoDate, goalDate);
            OnTrackStatus(Some(goalDate), Some(weightKg), Some(goal), [prev, latest]) == Some(Green)
  {
  }
}
