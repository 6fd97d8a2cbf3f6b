/** Workout templates (src/lib/templates.ts): the persisted template list
    with upsert and delete by id, and `slugify`, which turns a display name
    into an id. */
module Templates {
  import opened Seqs
  import opened Text

  datatype Exercise = Exercise(id: string, name: string, notes: Option<string>)

  datatype WarmupItem = WarmupItem(id: string, text: string)

  /** `exercises` is in the order the workout runs them. */
  datatype Template = Template(
    id: string,
    name: string,
    exercises: seq<Exercise>,
    warmup: seq<WarmupItem>,
    updatedAt: int,
    iconKey: Option<string>)

  predicate HasId(id: string, t: Template) {
    t.id == id
  }

  /** The list after `upsertTemplate(t)`: the first template with `t`'s id is
      replaced in place, every other position kept; with no such template,
      `t` is put in front of the unchanged list. */
  function Upserted(list: seq<Template>, t: Template): (r: seq<Template>)
    ensures (forall x :: x in list ==> x.id != t.id) ==> |r| == |list| + 1 && r[0] == t && r[1..] == list
    ensures forall k :: 0 <= k < |list| && list[k].id == t.id && (forall j :: 0 <= j < k ==> list[j].id != t.id) ==>
              |r| == |list| && r[k] == t && forall m :: 0 <= m < |list| && m != k ==> r[m] == list[m]
  {
    var idx := FindIndex(list, x => HasId(t.id, x));
    if idx >= 0 then list[idx := t] else [t] + list
  }

  /** After an upsert, looking the id up finds exactly the upserted template. */
  lemma UpsertedThenFound(list: seq<Template>, t: Template)
    ensures var r := Upserted(list, t);
            var i := FindIndex(r, x => HasId(t.id, x));
            0 <= i && r[i] == t
  {
    var r := Upserted(list, t);
    var idx := FindIndex(list, x => HasId(t.id, x));
    if idx >= 0 {
      assert forall j :: 0 <= j < idx ==> r[j] == list[j];
      assert r[idx] == t;
    } else {
      assert r[0] == t;
    }
  }

  /** The list after `removeTemplate(id)`: every template with `id` dropped,
      the others kept in order (`Filter`). */
  function Removed(list: seq<Template>, id: string): (r: seq<Template>)
    ensures forall x :: x in r <==> x in list && x.id != id
    ensures forall x: Template :: x.id != id ==> multiset(r)[x] == multiset(list)[x]
    ensures r == Filter(list, x => !HasId(id, x))
  {
    Filter(list, x => !HasId(id, x))
  }

  /** Removing an id undoes any upsert of that id on the other templates:
      what remains is what removing it from the original list leaves. */
  lemma RemoveAfterUpsert(list: seq<Template>, t: Template)
    ensures Removed(Upserted(list, t), t.id) == Removed(list, t.id)
  {
    var p := (x: Template) => !HasId(t.id, x);
    var idx := FindIndex(list, x => HasId(t.id, x));
    if idx >= 0 {
      var r := list[idx := t];
      assert list == list[..idx] + [list[idx]] + list[idx + 1..];
      assert r == list[..idx] + [t] + list[idx + 1..];
      FilterConcat(list[..idx] + [list[idx]], list[idx + 1..], p);
      FilterConcat(list[..idx], [list[idx]], p);
      FilterConcat(list[..idx] + [t], list[idx + 1..], p);
      FilterConcat(list[..idx], [t], p);
      assert Filter([t], p) == [] && Filter([list[idx]], p) == [];
    } else {
      FilterConcat([t], list, p);
      assert Filter([t], p) == [];
    }
  }

  class TemplateStore {
    var list: seq<Template>

    constructor ()
      ensures list == []
    {
      list := [];
    }

    /** `upsertTemplate`. */
    method UpsertTemplate(t: Template)
      modifies this
      ensures list == Upserted(old(list), t)
    {
      var idx := FindIndex(list, x => HasId(t.id, x));
      if idx >= 0 {
        list := list[idx := t];
      } else {
        list := [t] + list;
      }
    }

    /** `removeTemplate`. */
    method RemoveTemplate(id: string)
      modifies this
      ensures list == Removed(old(list), id)
    {
      list := Filter(list, x => !HasId(id, x));
    }
  }

  // ---- slugify ----

  predicate IsLowerAlnum(c: char) {
    ('a' <= c <= 'z') || ('0' <= c <= '9')
  }

  /** How many white-space characters `s` starts with: all of them are
      white space, and the character after them is not. */
  function LeadingWhitespace(s: string): (k: nat)
    ensures k <= |s|
    ensures forall i :: 0 <= i < k ==> IsJsWhitespace(s[i])
    ensures k < |s| ==> !IsJsWhitespace(s[k])
  {
    if |s| > 0 && IsJsWhitespace(s[0]) then
      var k := LeadingWhitespace(s[1..]);
      assert forall i :: 1 <= i < |s| ==> s[i] == s[1..][i - 1];
      k + 1
    else 0
  }

  /** How many white-space characters `s` ends with: all of them are white
      space, and the character before them is not. */
  function TrailingWhitespace(s: string): (k: nat)
    ensures k <= |s|
    ensures forall i :: |s| - k <= i < |s| ==> IsJsWhitespace(s[i])
    ensures k < |s| ==> !IsJsWhitespace(s[|s| - k - 1])
  {
    if |s| > 0 && IsJsWhitespace(s[|s| - 1]) then TrailingWhitespace(s[..|s| - 1]) + 1 else 0
  }

  /** `r` is the piece `s[lo..hi]`, with only white space around it. */
  predicate TrimmedAt(s: string, r: string, lo: int, hi: int) {
    && 0 <= lo <= hi <= |s| && r == s[lo..hi]
    && (forall i :: 0 <= i < lo ==> IsJsWhitespace(s[i]))
    && (forall i :: hi <= i < |s| ==> IsJsWhitespace(s[i]))
  }

  /** `trim`: the leading and the trailing white space removed, the middle
      kept whole; what is left neither starts nor ends with white space. */
  function Trim(s: string): (r: string)
    ensures exists lo, hi :: TrimmedAt(s, r, lo, hi)
    ensures |r| > 0 ==> !IsJsWhitespace(r[0]) && !IsJsWhitespace(r[|r| - 1])
  {
    var lo := LeadingWhitespace(s);
    var hi := |s| - TrailingWhitespace(s[lo..]);
    TrailingAfter(s, lo);
    assert TrimmedAt(s, s[lo..hi], lo, hi);
    s[lo..hi]
  }

  /** The trailing white space of `s[lo..]`, seen in `s`. */
  lemma TrailingAfter(s: string, lo: int)
    requires 0 <= lo <= |s|
    ensures var hi := |s| - TrailingWhitespace(s[lo..]);
            && lo <= hi
            && (forall i :: hi <= i < |s| ==> IsJsWhitespace(s[i]))
            && (lo < hi ==> !IsJsWhitespace(s[hi - 1]))
  {
    var t := s[lo..];
    var hi := |s| - TrailingWhitespace(t);
    assert forall i :: lo <= i < |s| ==> s[i] == t[i - lo];
  }

  /** How many characters outside `[a-z0-9]` `s` starts with: none of them
      is in `[a-z0-9]`, and the character after them is. */
  function LeadingRun(s: string): (k: nat)
    ensures k <= |s|
    ensures forall i :: 0 <= i < k ==> !IsLowerAlnum(s[i])
    ensures k < |s| ==> IsLowerAlnum(s[k])
  {
    if |s| > 0 && !IsLowerAlnum(s[0]) then
      var k := LeadingRun(s[1..]);
      assert forall i :: 1 <= i < |s| ==> s[i] == s[1..][i - 1];
      k + 1
    else 0
  }

  /** Drops the leading run of characters outside `[a-z0-9]`. */
  function SkipRun(s: string): string {
    s[LeadingRun(s)..]
  }

  /** `replace(/[^a-z0-9]+/g, "-")`: each maximal run of characters outside
      `[a-z0-9]` becomes one hyphen. The result holds only `[a-z0-9-]`, never
      two hyphens in a row, and begins with a hyphen exactly when `s` begins
      outside `[a-z0-9]`. */
  function CollapseRuns(s: string): (r: string)
    ensures forall i :: 0 <= i < |r| ==> IsLowerAlnum(r[i]) || r[i] == '-'
    ensures forall i :: 0 <= i < |r| - 1 ==> !(r[i] == '-' && r[i + 1] == '-')
    ensures |r| == 0 <==> |s| == 0
    ensures |s| > 0 ==> r[0] == (if IsLowerAlnum(s[0]) then s[0] else '-')
    decreases |s|
  {
    if |s| == 0 then ""
    else if IsLowerAlnum(s[0]) then [s[0]] + CollapseRuns(s[1..])
    else "-" + CollapseRuns(SkipRun(s[1..]))
  }

  /** `replace(/(^-|-$)/g, "")`: one hyphen dropped at each end. */
  function StripHyphens(s: string): string {
    var a := if |s| > 0 && s[0] == '-' then s[1..] else s;
    if |a| > 0 && a[|a| - 1] == '-' then a[..|a| - 1] else a
  }

  /** Only `[a-z0-9-]`, and no two hyphens in a row. */
  predicate SlugChars(s: string) {
    && (forall i :: 0 <= i < |s| ==> IsLowerAlnum(s[i]) || s[i] == '-')
    && (forall i :: 0 <= i < |s| - 1 ==> !(s[i] == '-' && s[i + 1] == '-'))
  }

  /** The shape of a slug: only `[a-z0-9-]`, no two hyphens in a row, and
      no hyphen at either end. */
  predicate IsSlug(s: string) {
    SlugChars(s) && (|s| > 0 ==> s[0] != '-' && s[|s| - 1] != '-')
  }

  /** `slugify`: lower-case, trim, collapse runs outside `[a-z0-9]` to one
      hyphen, drop a hyphen at either end. The result is always a slug. */
  function Slugify(name: string): (r: string)
    ensures IsSlug(r)
  {
    var c := CollapseRuns(Trim(ToLowerAscii(name)));
    StripHyphensMakesSlug(c);
    StripHyphens(c)
  }

  /** Dropping a hyphen at each end of a string of `[a-z0-9-]` with no two
      hyphens in a row leaves a slug. */
  lemma StripHyphensMakesSlug(c: string)
    requires SlugChars(c)
    ensures IsSlug(StripHyphens(c))
  {
    var lo := if |c| > 0 && c[0] == '-' then 1 else 0;
    var hi := if |c| - lo > 0 && c[|c| - 1] == '-' then |c| - 1 else |c|;
    assert StripHyphens(c) == c[lo..hi];
    SlugCharsSlice(c, lo, hi);
  }

  /** A piece of a string of `[a-z0-9-]` with no two hyphens in a row is one too. */
  lemma SlugCharsSlice(s: string, lo: int, hi: int)
    requires SlugChars(s) && 0 <= lo <= hi <= |s|
    ensures SlugChars(s[lo..hi])
  {
    assert forall i :: 0 <= i < hi - lo ==> s[lo..hi][i] == s[lo + i];
  }

  /** Collapsing keeps every character of `[a-z0-9]`, in order: only runs of
      other characters turn into hyphens. */
  lemma {:induction false} CollapseRunsKeepsAlnum(s: string)
    ensures Filter(CollapseRuns(s), IsLowerAlnum) == Filter(s, IsLowerAlnum)
    decreases |s|
  {
    if |s| > 0 {
      var t := s[1..];
      assert s == [s[0]] + t;
      FilterCons(s[0], t, IsLowerAlnum);
      if IsLowerAlnum(s[0]) {
        CollapseRunsKeepsAlnum(t);
        FilterCons(s[0], CollapseRuns(t), IsLowerAlnum);
      } else {
        var rest := SkipRun(t);
        CollapseRunsKeepsAlnum(rest);
        FilterCons('-', CollapseRuns(rest), IsLowerAlnum);
        SkipRunKeepsAlnum(t);
      }
    }
  }

  /** The run `SkipRun` drops holds nothing of `[a-z0-9]`. */
  lemma SkipRunKeepsAlnum(t: string)
    ensures Filter(SkipRun(t), IsLowerAlnum) == Filter(t, IsLowerAlnum)
  {
    FilterDropsPrefix(t, LeadingRun(t), IsLowerAlnum);
  }

  /** Trimming keeps every character of `[a-z0-9]`, in order. */
  lemma TrimKeepsAlnum(s: string)
    ensures Filter(Trim(s), IsLowerAlnum) == Filter(s, IsLowerAlnum)
  {
    var r := Trim(s);
    var lo, hi :| TrimmedAt(s, r, lo, hi);
    forall i | 0 <= i < lo || hi <= i < |s| ensures !IsLowerAlnum(s[i]) {
      WhitespaceIsNotAlnum(s[i]);
    }
    FilterSlice(s, lo, hi, IsLowerAlnum);
  }

  lemma WhitespaceIsNotAlnum(c: char)
    requires IsJsWhitespace(c)
    ensures !IsLowerAlnum(c)
  {
  }

  /** Dropping end hyphens keeps every character of `[a-z0-9]`, in order. */
  lemma StripHyphensKeepsAlnum(c: string)
    ensures Filter(StripHyphens(c), IsLowerAlnum) == Filter(c, IsLowerAlnum)
  {
    var lo := if |c| > 0 && c[0] == '-' then 1 else 0;
    var hi := if |c| - lo > 0 && c[|c| - 1] == '-' then |c| - 1 else |c|;
    assert StripHyphens(c) == c[lo..hi];
    FilterSlice(c, lo, hi, IsLowerAlnum);
  }

  /** `slugify` keeps exactly the letters and digits of the lower-cased name,
      in order; everything else is gone or has become a hyphen. */
  lemma SlugifyKeepsAlnum(name: string)
    ensures Filter(Slugify(name), IsLowerAlnum) == Filter(ToLowerAscii(name), IsLowerAlnum)
  {
    var t := Trim(ToLowerAscii(name));
    TrimKeepsAlnum(ToLowerAscii(name));
    CollapseRunsKeepsAlnum(t);
    StripHyphensKeepsAlnum(CollapseRuns(t));
  }

  /** Only `[a-z0-9]`. */
  predicate AllLowerAlnum(s: string) {
    forall i :: 0 <= i < |s| ==> IsLowerAlnum(s[i])
  }

  /** Two words of `[a-z0-9]` with a space between them slugify to the
      words joined by a hyphen ("push day" becomes "push-day"). */
  lemma SlugifyTwoWords(a: string, b: string)
    requires |a| > 0 && |b| > 0 && AllLowerAlnum(a) && AllLowerAlnum(b)
    ensures Slugify(a + " " + b) == a + "-" + b
  {
    var s := a + ([' '] + b);
    assert a + " " + b == s;
    SpacedWordsUnchanged(a, b);
    CollapseTwoWords(a, b);
    HyphenJoinEnds(a, b);
    StripHyphensOfSlug(a + "-" + b);
  }

  /** Lower-casing and trimming leave two words of `[a-z0-9]` with a space
      between them alone. */
  lemma SpacedWordsUnchanged(a: string, b: string)
    requires |a| > 0 && |b| > 0 && AllLowerAlnum(a) && AllLowerAlnum(b)
    ensures var s := a + ([' '] + b); Trim(ToLowerAscii(s)) == s
  {
    var s := a + ([' '] + b);
    SpacedWordsChars(a, b);
    LowerOfSlugChars(s);
    assert s[0] == a[0] && s[|s| - 1] == b[|b| - 1];
    TrimOfTrimmed(s);
  }

  /** Two words of `[a-z0-9]` with a space between them hold nothing else. */
  lemma SpacedWordsChars(a: string, b: string)
    requires AllLowerAlnum(a) && AllLowerAlnum(b)
    ensures var s := a + ([' '] + b); forall i :: 0 <= i < |s| ==> IsLowerAlnum(s[i]) || s[i] == ' '
  {
    var s := a + ([' '] + b);
    forall i | 0 <= i < |s| ensures IsLowerAlnum(s[i]) || s[i] == ' ' {
      if i < |a| {
        assert s[i] == a[i];
      } else if i > |a| {
        assert s[i] == b[i - |a| - 1];
      }
    }
  }

  /** Joining two non-empty words keeps their outer characters at the ends. */
  lemma HyphenJoinEnds(a: string, b: string)
    requires |a| > 0 && |b| > 0
    ensures var r := a + "-" + b; r[0] == a[0] && r[|r| - 1] == b[|b| - 1]
  {
  }

  /** The space between two words of `[a-z0-9]` collapses to a hyphen. */
  lemma CollapseTwoWords(a: string, b: string)
    requires |b| > 0 && AllLowerAlnum(a) && AllLowerAlnum(b)
    ensures CollapseRuns(a + ([' '] + b)) == a + "-" + b
  {
    CollapseRunsAlnumPrefix(a, [' '] + b);
    CollapseRunsGapHead(' ', b);
    assert SkipRun(b) == b;
    CollapseRunsAlnumPrefix(b, "");
    assert b + "" == b;
    assert a + ("-" + b) == a + "-" + b;
  }

  /** Letters and digits at the front pass through collapsing unchanged. */
  lemma {:induction false} CollapseRunsAlnumPrefix(a: string, t: string)
    requires forall i :: 0 <= i < |a| ==> IsLowerAlnum(a[i])
    ensures CollapseRuns(a + t) == a + CollapseRuns(t)
  {
    if |a| > 0 {
      var rest := a[1..];
      assert a + t == [a[0]] + (rest + t);
      CollapseRunsAlnumHead(a[0], rest + t);
      CollapseRunsAlnumPrefix(rest, t);
      assert a == [a[0]] + rest;
    } else {
      assert a + t == t;
    }
  }

  /** A character outside `[a-z0-9]` in front starts a run that becomes one hyphen. */
  lemma CollapseRunsGapHead(c: char, t: string)
    requires !IsLowerAlnum(c)
    ensures CollapseRuns([c] + t) == "-" + CollapseRuns(SkipRun(t))
  {
    var s := [c] + t;
    assert s[0] == c && s[1..] == t;
  }

  /** One letter or digit in front passes through collapsing unchanged. */
  lemma CollapseRunsAlnumHead(c: char, t: string)
    requires IsLowerAlnum(c)
    ensures CollapseRuns([c] + t) == [c] + CollapseRuns(t)
  {
    var s := [c] + t;
    assert s[0] == c && s[1..] == t;
  }

  /** A slug is left alone by the collapsing step. */
  lemma {:induction false} CollapseRunsOfSlugChars(s: string)
    requires SlugChars(s)
    requires |s| > 0 ==> s[|s| - 1] != '-'
    ensures CollapseRuns(s) == s
  {
    if |s| > 0 {
      var t := s[1..];
      SlugCharsSlice(s, 1, |s|);
      assert |t| > 0 ==> t[0] == s[1] && t[|t| - 1] == s[|s| - 1];
      if s[0] == '-' {
        assert IsLowerAlnum(t[0]);
        assert SkipRun(t) == t;
      }
      CollapseRunsOfSlugChars(t);
      assert s == [s[0]] + t;
    }
  }

  /** A string of `[a-z0-9-]` has no capital to lower-case. */
  lemma LowerOfSlugChars(s: string)
    requires forall i :: 0 <= i < |s| ==> IsLowerAlnum(s[i]) || s[i] == '-' || s[i] == ' '
    ensures ToLowerAscii(s) == s
  {
    var l := ToLowerAscii(s);
    assert forall i :: 0 <= i < |s| ==> l[i] == s[i];
  }

  /** A string with no white space at either end is its own trim. */
  lemma TrimOfTrimmed(s: string)
    requires |s| > 0 ==> !IsJsWhitespace(s[0]) && !IsJsWhitespace(s[|s| - 1])
    ensures Trim(s) == s
  {
    assert LeadingWhitespace(s) == 0;
    assert TrailingWhitespace(s) == 0;
  }

  /** A slug is its own slug. */
  lemma SlugFixed(s: string)
    requires IsSlug(s)
    ensures Slugify(s) == s
  {
    LowerOfSlugChars(s);
    TrimOfTrimmed(s);
    CollapseRunsOfSlugChars(s);
    StripHyphensOfSlug(s);
    assert CollapseRuns(Trim(ToLowerAscii(s))) == s;
  }

  /** A string with no hyphen at either end has none to strip. */
  lemma StripHyphensOfSlug(s: string)
    requires |s| > 0 ==> s[0] != '-' && s[|s| - 1] != '-'
    ensures StripHyphens(s) == s
  {
  }

  /** `slugify` is idempotent. */
  lemma SlugifyIdempotent(name: string)
    ensures Slugify(Slugify(name)) == Slugify(name)
  {
    SlugFixed(Slugify(name));
  }

  /** No character of `s` is in `[a-z0-9]`. */
  predicate NoAlnum(s: string) {
    forall i :: 0 <= i < |s| ==> !IsLowerAlnum(s[i])
  }

  /** Collapsing a string with no character of `[a-z0-9]` leaves at most one hyphen. */
  lemma {:induction false} CollapseRunsNoAlnum(s: string)
    requires NoAlnum(s)
    ensures CollapseRuns(s) == if |s| == 0 then "" else "-"
  {
    if |s| > 0 {
      assert LeadingRun(s[1..]) == |s| - 1 by {
        assert forall i :: 0 <= i < |s| - 1 ==> s[1..][i] == s[i + 1];
      }
    }
  }

  lemma NoAlnumSlice(s: string, a: int, b: int)
    requires NoAlnum(s) && 0 <= a <= b <= |s|
    ensures NoAlnum(s[a..b])
  {
    forall i | 0 <= i < b - a ensures !IsLowerAlnum(s[a..b][i]) {
      assert s[a..b][i] == s[a + i];
    }
  }

  /** Trimming keeps a string free of `[a-z0-9]`. */
  lemma TrimNoAlnum(s: string)
    requires NoAlnum(s)
    ensures NoAlnum(Trim(s))
  {
    var lo, hi :| TrimmedAt(s, Trim(s), lo, hi);
    NoAlnumSlice(s, lo, hi);
  }

  /** A name with no ASCII letter or digit slugifies to the empty string. */
  lemma SlugifyNoAlnum(name: string)
    requires forall i :: 0 <= i < |name| ==> !IsLowerAlnum(name[i]) && !('A' <= name[i] <= 'Z')
    ensures Slugify(name) == ""
  {
    var l := ToLowerAscii(name);
    assert NoAlnum(l);
    TrimNoAlnum(l);
    CollapseRunsNoAlnum(Trim(l));
  }
}
