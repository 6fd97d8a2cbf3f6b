/** The exercise icon (src/lib/iconForName.tsx): an explicit choice from
    the icon catalogue wins, otherwise the icon implied by keywords in the
    exercise name. Each regular expression is modelled as a substring test
    on the lower-cased name, so substring matches such as "rom" in "from"
    or "ham" in "hammer" count, as they do in the source. */
module IconForName {
  import opened Seqs
  import opened Text

  datatype Icon =
    | Dumbbell | Footprints | Activity | Shield | Bone | Move3d
    | Apple | Flame | StretchVertical | StretchHorizontal | Wind

  datatype IconOption = IconOption(key: string, title: string, icon: Icon)

  /** `ICON_OPTIONS`, the catalogue an override is picked from. */
  const IconOptions: seq<IconOption> := [
    IconOption("dumbbell", "Arms / Shoulders", Dumbbell),
    IconOption("footprints", "Legs / Lower body", Footprints),
    IconOption("bone", "Back / Pull", Bone),
    IconOption("shield", "Chest / Push", Shield),
    IconOption("move3d", "Full Body / Glutes", Move3d),
    IconOption("apple", "Core / Abs", Apple),
    IconOption("activity", "Cardio / Conditioning", Activity),
    IconOption("flame", "Combo / High Effort", Flame),
    IconOption("stretchV", "Mobility (Vertical)", StretchVertical),
    IconOption("stretchH", "Mobility (Horizontal)", StretchHorizontal),
    IconOption("wind", "Dynamic Warm-up", Wind)
  ]

  function KeyOf(o: IconOption): string {
    o.key
  }

  /** The first letter, length and last letter of a key. */
  function Signature(k: string): (char, int, char) {
    if |k| == 0 then ('\0', 0, '\0') else (k[0], |k|, k[|k| - 1])
  }

  /** The catalogue keys are pairwise distinct (already their signatures
      are), so the key lookup is well defined. */
  lemma IconKeysDistinct()
    ensures DistinctBy(IconOptions, KeyOf)
  {
    var sigs := [('d', 8, 'l'), ('f', 10, 's'), ('b', 4, 'e'), ('s', 6, 'd'), ('m', 6, 'd'), ('a', 5, 'e'),
                 ('a', 8, 'y'), ('f', 5, 'e'), ('s', 8, 'V'), ('s', 8, 'H'), ('w', 4, 'd')];
    assert forall i :: 0 <= i < |IconOptions| ==> Signature(IconOptions[i].key) == sigs[i];
    assert forall i, j :: 0 <= i < j < |sigs| ==> sigs[i] != sigs[j];
  }

  /** `BY_KEY[key]`: the icon of the catalogue entry with that key. */
  function ByKey(key: string): (r: Option<Icon>)
    ensures r.None? <==> forall o :: o in IconOptions ==> o.key != key
    ensures forall k :: 0 <= k < |IconOptions| && IconOptions[k].key == key ==> r == Some(IconOptions[k].icon)
  {
    IconKeysDistinct();
    var i := FindIndex(IconOptions, (o: IconOption) => o.key == key);
    if i >= 0 then Some(IconOptions[i].icon) else None
  }

  /** `text` occurs in `s` at index `i`. */
  predicate IsAt(s: string, text: string, i: int) {
    0 <= i && i + |text| <= |s| && s[i..i + |text|] == text
  }

  /** `text` occurs in `s`. */
  predicate Contains(s: string, text: string) {
    exists i :: 0 <= i <= |s| && IsAt(s, text, i)
  }

  predicate ContainsAny(s: string, words: seq<string>) {
    exists w :: w in words && Contains(s, w)
  }

  /** `warm[-\s]?up`: "warm", at most one hyphen or white-space character, "up". */
  predicate ContainsWarmUp(s: string) {
    exists i :: 0 <= i <= |s| && WarmUpAt(s, i)
  }

  predicate WarmUpAt(s: string, i: int) {
    IsAt(s, "warm", i)
    && (IsAt(s, "up", i + 4)
        || (i + 5 <= |s| && (s[i + 4] == '-' || IsJsWhitespace(s[i + 4])) && IsAt(s, "up", i + 5)))
  }

  const MobilityWords: seq<string> := ["mobility", "warmup", "stretch", "flex", "rom", "range of motion"]
  const LegWords: seq<string> := ["leg", "quad", "ham", "lower body"]
  const ArmWords: seq<string> := ["arm", "bicep", "tricep", "shoulder", "delt"]
  const BackWords: seq<string> := ["back", "lat", "row", "pull"]
  const ChestWords: seq<string> := ["chest", "pec", "push"]
  const GluteWords: seq<string> := ["glute", "booty", "hip"]
  const CoreWords: seq<string> := ["core", "abs", "abdom", "midsection"]
  const CardioWords: seq<string> := ["cardio", "condition", "metcon", "hiit"]
  const FullWords: seq<string> := ["full", "total", "body", "combo"]

  predicate Mobility(n: string) {
    ContainsAny(n, MobilityWords) || ContainsWarmUp(n)
  }

  /** The keyword categories after mobility, in the order they are tried. */
  const Categories: seq<(seq<string>, Icon)> := [
    (LegWords, Footprints), (ArmWords, Dumbbell), (BackWords, Bone), (ChestWords, Shield),
    (GluteWords, Move3d), (CoreWords, Apple), (CardioWords, Activity), (FullWords, Flame)
  ]

  /** The first category from `k` on whose keywords occur in `n`, as a
      reference for the chain of early returns. */
  function FirstCategory(n: string, k: nat): (r: Option<Icon>)
    requires k <= |Categories|
    ensures r.None? <==> forall j :: k <= j < |Categories| ==> !ContainsAny(n, Categories[j].0)
    decreases |Categories| - k
  {
    if k == |Categories| then None
    else if ContainsAny(n, Categories[k].0) then Some(Categories[k].1)
    else FirstCategory(n, k + 1)
  }

  /** The first matching category is the one chosen. */
  lemma {:induction false} FirstCategoryIsFirst(n: string, k: nat, j: nat)
    requires k <= j < |Categories|
    requires ContainsAny(n, Categories[j].0)
    requires forall l :: k <= l < j ==> !ContainsAny(n, Categories[l].0)
    ensures FirstCategory(n, k) == Some(Categories[j].1)
    decreases j - k
  {
    if k < j {
      FirstCategoryIsFirst(n, k + 1, j);
    }
  }

  /** `impliedIconFor` after lower-casing: mobility, legs, arms, back,
      chest, glutes, core, cardio, full body, each returning at the first
      match, and the dumbbell when nothing matches. */
  function ImpliedIconOfLower(n: string): Icon {
    if Mobility(n) then StretchVertical
    else if ContainsAny(n, LegWords) then Footprints
    else if ContainsAny(n, ArmWords) then Dumbbell
    else if ContainsAny(n, BackWords) then Bone
    else if ContainsAny(n, ChestWords) then Shield
    else if ContainsAny(n, GluteWords) then Move3d
    else if ContainsAny(n, CoreWords) then Apple
    else if ContainsAny(n, CardioWords) then Activity
    else if ContainsAny(n, FullWords) then Flame
    else Dumbbell
  }

  /** `impliedIconFor`: the name lower-cased, then the keyword chain. */
  function ImpliedIconFor(name: string): Icon {
    ImpliedIconOfLower(ToLowerAscii(name))
  }

  /** The chain of early returns picks the first matching category of the
      priority table, after mobility; with no match, the dumbbell. */
  lemma ImpliedIconFollowsPriority(n: string)
    ensures ImpliedIconOfLower(n) ==
              if Mobility(n) then StretchVertical
              else var c := FirstCategory(n, 0); if c.Some? then c.value else Dumbbell
  {
    assert FirstCategory(n, 0) == if ContainsAny(n, LegWords) then Some(Footprints) else FirstCategory(n, 1);
    assert FirstCategory(n, 1) == if ContainsAny(n, ArmWords) then Some(Dumbbell) else FirstCategory(n, 2);
    assert FirstCategory(n, 2) == if ContainsAny(n, BackWords) then Some(Bone) else FirstCategory(n, 3);
    assert FirstCategory(n, 3) == if ContainsAny(n, ChestWords) then Some(Shield) else FirstCategory(n, 4);
    assert FirstCategory(n, 4) == if ContainsAny(n, GluteWords) then Some(Move3d) else FirstCategory(n, 5);
    assert FirstCategory(n, 5) == if ContainsAny(n, CoreWords) then Some(Apple) else FirstCategory(n, 6);
    assert FirstCategory(n, 6) == if ContainsAny(n, CardioWords) then Some(Activity) else FirstCategory(n, 7);
    assert FirstCategory(n, 7) == if ContainsAny(n, FullWords) then Some(Flame) else FirstCategory(n, 8);
  }

  /** Mobility and warm-up words win over every other category. */
  lemma MobilityWins(name: string)
    requires Mobility(ToLowerAscii(name))
    ensures ImpliedIconFor(name) == StretchVertical
  {
  }

  /** The classification ignores case: a name and its lower-cased form get
      the same icon. */
  lemma ImpliedIconCaseInsensitive(name: string)
    ensures ImpliedIconFor(ToLowerAscii(name)) == ImpliedIconFor(name)
  {
    ToLowerAsciiIdempotent(name);
  }

  /** A name with no keyword at all gets the dumbbell. */
  lemma NoKeywordIsDumbbell(name: string)
    requires !Mobility(ToLowerAscii(name))
    requires forall j :: 0 <= j < |Categories| ==> !ContainsAny(ToLowerAscii(name), Categories[j].0)
    ensures ImpliedIconFor(name) == Dumbbell
  {
    ImpliedIconFollowsPriority(ToLowerAscii(name));
  }

  /** "leg stretch" is a mobility exercise although it also names the legs. */
  lemma LegStretchIsMobility()
    ensures ImpliedIconOfLower("leg stretch") == StretchVertical
  {
    var n := "leg stretch";
    assert IsAt(n, "stretch", 4);
    assert "stretch" in MobilityWords;
  }

  /** "hammer curl" is classed with the legs: "ham" is a leg keyword. */
  lemma HammerCurlIsLegs()
    ensures ImpliedIconOfLower("hammer curl") == Footprints
  {
    var n := "hammer curl";
    assert IsAt(n, "ham", 0);
    assert "ham" in LegWords;
    Absent(n, "mobility", 'y');
    Absent(n, "warmup", 'w');
    Absent(n, "stretch", 't');
    Absent(n, "flex", 'f');
    Absent(n, "rom", 'o');
    Absent(n, "range of motion", 'o');
    Absent(n, "warm", 'w');
  }

  /** A word with a letter the text lacks does not occur in it. */
  lemma Absent(s: string, w: string, c: char)
    requires c in w && c !in s
    ensures !Contains(s, w)
  {
    var k :| 0 <= k < |w| && w[k] == c;
    forall i | 0 <= i <= |s| ensures !IsAt(s, w, i) {
      if i + |w| <= |s| {
        assert s[i..i + |w|][k] == s[i + k] != c;
      }
    }
  }

  /** No catalogue key is empty. */
  lemma NoEmptyKey()
    ensures forall k :: 0 <= k < |IconOptions| ==> IconOptions[k].key != ""
  {
    forall k | 0 <= k < |IconOptions| ensures |IconOptions[k].key| >= 4 {
    }
  }

  /** `IconForName`: the override when `iconKey` is a catalogue key,
      the implied icon otherwise. */
  function IconFor(name: string, iconKey: Option<string>): (r: Icon)
    ensures iconKey.Some? && ByKey(iconKey.value).Some? ==> r == ByKey(iconKey.value).value
    ensures iconKey.None? || ByKey(iconKey.value).None? ==> r == ImpliedIconFor(name)
  {
    NoEmptyKey();
    if iconKey.Some? && iconKey.value != "" && ByKey(iconKey.value).Some? then ByKey(iconKey.value).value
    else ImpliedIconFor(name)
  }

  /** An override key from the catalogue always wins. */
  lemma OverrideWins(name: string, k: nat)
    requires k < |IconOptions|
    ensures IconFor(name, Some(IconOptions[k].key)) == IconOptions[k].icon
  {
    NoEmptyKey();
  }
}
