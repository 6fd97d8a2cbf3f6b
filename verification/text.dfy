/** Decimal rendering of numbers, as JavaScript's template literals and
    `String(n)` print integers, and `padStart(2, "0")`, each with the value
    a reader of the text recovers from it; and the character classes the
    string helpers share. */
module Text {

  predicate IsDigit(c: char) {
    '0' <= c <= '9'
  }

  predicate AllDigits(s: string) {
    forall i :: 0 <= i < |s| ==> IsDigit(s[i])
  }

  /** The number a string of decimal digits denotes (leading zeros allowed). */
  function DecimalValue(s: string): nat
    requires AllDigits(s)
  {
    if |s| == 0 then 0
    else DecimalValue(s[..|s| - 1]) * 10 + (s[|s| - 1] as int - '0' as int)
  }

  function DigitChar(d: nat): (c: char)
    requires d < 10
    ensures IsDigit(c) && c as int - '0' as int == d
  {
    ('0' as int + d) as char
  }

  /** `String(n)` for a non-negative integer: the shortest decimal digits of `n`. */
  function NatToDecimal(n: nat): (s: string)
    ensures |s| >= 1 && AllDigits(s)
    ensures DecimalValue(s) == n
  {
    if n < 10 then [DigitChar(n)]
    else
      var prefix := NatToDecimal(n / 10);
      var s := prefix + [DigitChar(n % 10)];
      assert s[..|s| - 1] == prefix;
      s
  }

  /** `String(n)` writes no leading zero, except for zero itself. */
  lemma {:induction false} NatToDecimalCanonical(n: nat)
    ensures var s := NatToDecimal(n); |s| == 1 || s[0] != '0'
  {
    if n >= 10 {
      NatToDecimalCanonical(n / 10);
      var prefix := NatToDecimal(n / 10);
      assert NatToDecimal(n)[0] == prefix[0];
      if |prefix| == 1 {
        assert prefix == [DigitChar(n / 10)];
      }
    }
  }

  /** `String(i)` for any integer: a minus sign before the digits of a negative value. */
  function IntToDecimal(i: int): (s: string)
    ensures |s| >= 1
    ensures i >= 0 ==> AllDigits(s) && DecimalValue(s) == i
    ensures i < 0 ==> s[0] == '-' && AllDigits(s[1..]) && DecimalValue(s[1..]) == -i
  {
    if i < 0 then "-" + NatToDecimal(-i) else NatToDecimal(i)
  }

  /** A leading zero does not change the value of a digit string. */
  lemma {:induction false} LeadingZeroValue(s: string)
    ensures AllDigits(s) ==> AllDigits("0" + s) && DecimalValue("0" + s) == DecimalValue(s)
  {
    if |s| > 0 && AllDigits(s) {
      var t := "0" + s;
      assert t[..|t| - 1] == "0" + s[..|s| - 1];
      LeadingZeroValue(s[..|s| - 1]);
    }
  }

  /** `padStart(2, "0")`: at least two characters, zeros in front, the text itself kept whole. */
  function PadStart2(s: string): (r: string)
    ensures |r| == if |s| >= 2 then |s| else 2
    ensures r[|r| - |s|..] == s
    ensures AllDigits(s) ==> AllDigits(r) && DecimalValue(r) == DecimalValue(s)
  {
    if |s| >= 2 then s
    else if |s| == 1 then
      LeadingZeroValue(s);
      "0" + s
    else
      LeadingZeroValue("0");
      "00"
  }

  /** `r` reads as `s` seconds in the form `mm:ss`: the minutes padded to
      two digits and otherwise written without a leading zero, a colon,
      exactly two digits of seconds below 60. */
  predicate ShowsSeconds(r: string, s: int) {
    && |r| >= 5 && r[|r| - 3] == ':'
    && AllDigits(r[..|r| - 3]) && AllDigits(r[|r| - 2..])
    && (|r| == 5 || r[0] != '0')
    && DecimalValue(r[|r| - 2..]) < 60
    && DecimalValue(r[..|r| - 3]) * 60 + DecimalValue(r[|r| - 2..]) == s
  }

  /** `mm:ss` for a whole number of seconds: the minutes padded to at least
      two digits and never truncated, a colon, the seconds as exactly two
      digits below 60; reading the two fields back gives `s` again. */
  function MmSs(s: nat): (r: string)
    ensures ShowsSeconds(r, s)
  {
    var mins := NatToDecimal(s / 60);
    var mm := PadStart2(mins);
    var secs := s % 60;
    var digits := NatToDecimal(secs);
    assert |digits| <= 2 by {
      if secs >= 10 { assert NatToDecimal(secs) == NatToDecimal(secs / 10) + [DigitChar(secs % 10)]; }
    }
    var ss := PadStart2(digits);
    NatToDecimalCanonical(s / 60);
    PaddedMinutes(mins);
    JoinShows(mm, ss, s / 60, secs);
    mm + ":" + ss
  }

  /** Padding canonical digits gives two digits, or no leading zero. */
  lemma PaddedMinutes(mins: string)
    requires |mins| >= 1 && (|mins| == 1 || mins[0] != '0')
    ensures var mm := PadStart2(mins); |mm| == 2 || mm[0] != '0'
  {
    if |mins| >= 2 {
      assert PadStart2(mins) == mins;
    }
  }

  /** Minutes and seconds fields joined by a colon read back as `m * 60 + sec`. */
  lemma JoinShows(mm: string, ss: string, m: nat, sec: nat)
    requires |mm| >= 2 && AllDigits(mm) && DecimalValue(mm) == m && (|mm| == 2 || mm[0] != '0')
    requires |ss| == 2 && AllDigits(ss) && DecimalValue(ss) == sec && sec < 60
    ensures ShowsSeconds(mm + ":" + ss, m * 60 + sec)
  {
    var r := mm + ":" + ss;
    assert r[..|r| - 3] == mm && r[0] == mm[0];
    assert r[|r| - 2..] == ss;
  }

  /** Zero seconds read "00:00". */
  lemma MmSsZero()
    ensures MmSs(0) == "00:00"
  {
    assert NatToDecimal(0) == "0";
  }

  /** `toLowerCase` on ASCII letters; every other character is kept. */
  function ToLowerAscii(s: string): (r: string)
    ensures |r| == |s|
    ensures forall i :: 0 <= i < |s| ==>
              r[i] == if 'A' <= s[i] <= 'Z' then (s[i] as int + 32) as char else s[i]
  {
    if |s| == 0 then ""
    else [if 'A' <= s[0] <= 'Z' then (s[0] as int + 32) as char else s[0]] + ToLowerAscii(s[1..])
  }

  /** The characters `String.prototype.trim` removes: the ECMAScript
      WhiteSpace and LineTerminator code points. */
  predicate IsJsWhitespace(c: char) {
    var n := c as int;
    (0x09 <= n <= 0x0D) || n == 0x20 || n == 0xA0 || n == 0x1680 || (0x2000 <= n <= 0x200A)
    || n == 0x2028 || n == 0x2029 || n == 0x202F || n == 0x205F || n == 0x3000 || n == 0xFEFF
  }

  /** Lower-casing twice is lower-casing once. */
  lemma ToLowerAsciiIdempotent(s: string)
    ensures ToLowerAscii(ToLowerAscii(s)) == ToLowerAscii(s)
  {
    var l := ToLowerAscii(s);
    assert forall i :: 0 <= i < |l| ==> !('A' <= l[i] <= 'Z');
  }
}
