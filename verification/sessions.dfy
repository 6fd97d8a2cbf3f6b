/** Workout sessions (src/lib/sessions.ts): a list of sessions and the id
    of the session in progress. The stored list and the current-session
    key become the fields of `SessionStore`; ids and the clock are
    caller-supplied. */
module Sessions {
  import opened Seqs

  const MsPerDay: int := 86400000

  datatype Session = Session(id: string, templateId: string, templateName: string,
                             templateIconKey: Option<string>, startedAt: int,
                             endedAt: Option<int>, dayISO: int)

  /** The UTC calendar day of a timestamp (`toISOString().slice(0, 10)`),
      as a day number: the floor of `t / 86400000`, also before 1970. */
  function DayOf(t: int): (d: int)
    ensures d * MsPerDay <= t < (d + 1) * MsPerDay
  {
    t / MsPerDay
  }

  predicate HasId(id: string, s: Session) {
    s.id == id
  }

  /** The list after `endSession`: the first session with `id` gets
      `endedAt`, every other position is unchanged; with no such session
      the list is unchanged. */
  function Ended(all: seq<Session>, id: string, t: int): (r: seq<Session>)
    ensures |r| == |all|
    ensures forall k :: 0 <= k < |all| ==>
              r[k] == if all[k].id == id && forall j :: 0 <= j < k ==> all[j].id != id
                      then all[k].(endedAt := Some(t))
                      else all[k]
    ensures (forall x :: x in all ==> x.id != id) ==> r == all
  {
    var i := FindIndex(all, x => HasId(id, x));
    if i >= 0 then all[i := all[i].(endedAt := Some(t))] else all
  }

  function StartKey(s: Session): Key {
    Key(s.startedAt, 0)
  }

  /** `listSessionsForDay`: exactly the sessions of that day, each as often
      as it is stored, in ascending order of start time. */
  function ListSessionsForDay(all: seq<Session>, day: int): (r: seq<Session>)
    ensures forall x :: x in r <==> x in all && x.dayISO == day
    ensures forall x: Session :: multiset(r)[x] == if x.dayISO == day then multiset(all)[x] else 0
    ensures forall i, j :: 0 <= i < j < |r| ==> r[i].startedAt <= r[j].startedAt
  {
    var f := Filter(all, (s: Session) => s.dayISO == day);
    var r := SortBy(f, StartKey);
    assert multiset(r) == multiset(f);
    assert forall x :: x in r <==> x in f by {
      assert forall x :: x in r <==> x in multiset(r);
      assert forall x :: x in f <==> x in multiset(f);
    }
    assert forall i, j :: 0 <= i < j < |r| ==> KeyLeq(StartKey(r[i]), StartKey(r[j]));
    r
  }

  /** Sessions of the day with the same start time keep their stored order. */
  lemma ListSessionsForDayStable(all: seq<Session>, day: int, k: Key, p: Session -> bool)
    requires forall y :: p(y) <==> StartKey(y) == k
    ensures Filter(ListSessionsForDay(all, day), p) == Filter(Filter(all, (s: Session) => s.dayISO == day), p)
  {
    SortByStable(Filter(all, (s: Session) => s.dayISO == day), StartKey, k, p);
  }

  /** `getSession`: the first session with `id`, or nothing exactly when
      there is none. */
  function GetSession(all: seq<Session>, id: string): (r: Option<Session>)
    ensures r.None? <==> forall x :: x in all ==> x.id != id
    ensures r.Some? ==> r.value.id == id && r.value in all
    ensures r.Some? ==> exists k :: 0 <= k < |all| && all[k] == r.value && forall j :: 0 <= j < k ==> all[j].id != id
  {
    var i := FindIndex(all, x => HasId(id, x));
    if i >= 0 then Some(all[i]) else None
  }

  /** A session just started is found again by its id. */
  lemma GetAfterStart(all: seq<Session>, s: Session)
    requires forall x :: x in all ==> x.id != s.id
    ensures GetSession(all + [s], s.id) == Some(s)
  {
    var a := all + [s];
    assert a[|all|] == s;
    assert forall j :: 0 <= j < |all| ==> a[j] == all[j];
  }

  /** After `endSession` the session read back by that id carries the end time. */
  lemma GetAfterEnd(all: seq<Session>, id: string, t: int)
    ensures var g := GetSession(all, id);
            GetSession(Ended(all, id, t), id) == if g.Some? then Some(g.value.(endedAt := Some(t))) else None
  {
    var i := FindIndex(all, x => HasId(id, x));
    var r := Ended(all, id, t);
    var k := FindIndex(r, x => HasId(id, x));
    if i >= 0 {
      assert r[i].id == id;
      assert forall j :: 0 <= j < i ==> r[j] == all[j];
      assert k == i;
    } else {
      assert r == all;
    }
  }

  /** A session just started is listed under its day. */
  lemma ListedAfterStart(all: seq<Session>, s: Session)
    ensures s in ListSessionsForDay(all + [s], s.dayISO)
  {
  }

  class SessionStore {
    var all: seq<Session>
    var current: Option<string>

    constructor ()
      ensures all == [] && current == None
    {
      all := [];
      current := None;
    }

    /** `startSession`: appends one session with the caller's fresh id,
        started at `startedAt` or else `now`, and makes it current. */
    method StartSession(templateId: string, templateName: string, templateIconKey: Option<string>,
                        startedAt: Option<int>, now: int, id: string)
      returns (s: Session)
      requires forall x :: x in all ==> x.id != id
      modifies this
      ensures var t := if startedAt.Some? then startedAt.value else now;
              s == Session(id, templateId, templateName, templateIconKey, t, None, DayOf(t))
      ensures all == old(all) + [s]
      ensures current == Some(id)
      ensures GetSession(all, id) == Some(s)
    {
      var t := if startedAt.Some? then startedAt.value else now;
      s := Session(id, templateId, templateName, templateIconKey, t, None, DayOf(t));
      GetAfterStart(all, s);
      all := all + [s];
      current := Some(id);
    }

    /** `endSession`: stamps the first session with `id` (see `Ended`) and
        clears the current session whether or not `id` was found. */
    method EndSession(id: string, endedAt: Option<int>, now: int)
      modifies this
      ensures all == Ended(old(all), id, if endedAt.Some? then endedAt.value else now)
      ensures current == None
    {
      var i := FindIndex(all, x => HasId(id, x));
      if i >= 0 {
        var t := if endedAt.Some? then endedAt.value else now;
        all := all[i := all[i].(endedAt := Some(t))];
      }
      current := None;
    }
  }
}
