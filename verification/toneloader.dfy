/** The accent colour helpers (src/components/ToneLoader.tsx): reading a
    CSS hex colour into its red, green and blue channels, and choosing black
    or white text for that colour by its luminance. Only well-formed 3- or
    6-digit colours are modelled; the DOM writes are not part of this model. */
module ToneLoader {

  datatype Rgb = Rgb(r: int, g: int, b: int)

  predicate IsHexDigit(c: char) {
    ('0' <= c <= '9') || ('a' <= c <= 'f') || ('A' <= c <= 'F')
  }

  function HexDigitValue(c: char): (v: int)
    requires IsHexDigit(c)
    ensures 0 <= v < 16
  {
    if '0' <= c <= '9' then c as int - '0' as int
    else if 'a' <= c <= 'f' then c as int - 'a' as int + 10
    else c as int - 'A' as int + 10
  }

  predicate AllHex(s: string) {
    forall i :: 0 <= i < |s| ==> IsHexDigit(s[i])
  }

  /** The number a string of hex digits denotes (`parseInt(s, 16)`). */
  function HexValue(s: string): (n: nat)
    requires AllHex(s)
  {
    if |s| == 0 then 0
    else HexValue(s[..|s| - 1]) * 16 + HexDigitValue(s[|s| - 1])
  }

  /** `replace("#", "")`: only the first '#' is removed. */
  function RemoveFirstHash(s: string): (r: string)
    ensures '#' !in s ==> r == s
    ensures '#' in s ==> |r| == |s| - 1
  {
    if |s| == 0 then s
    else if s[0] == '#' then s[1..]
    else [s[0]] + RemoveFirstHash(s[1..])
  }

  /** The '#' that goes is the first one: the text before and after it is kept. */
  lemma {:induction false} RemoveFirstHashCutsFirst(s: string, i: int)
    requires 0 <= i < |s| && s[i] == '#' && '#' !in s[..i]
    ensures RemoveFirstHash(s) == s[..i] + s[i + 1..]
  {
    if i > 0 {
      var t := s[1..];
      assert s[0] in s[..i];
      assert t[i - 1] == '#' && s[..i] == [s[0]] + t[..i - 1];
      assert '#' !in t[..i - 1] by { assert forall c :: c in t[..i - 1] ==> c in s[..i]; }
      RemoveFirstHashCutsFirst(t, i - 1);
      assert s[i + 1..] == t[i..];
    }
  }

  /** The colours modelled: 3 or 6 hex digits once the first '#' is gone. */
  predicate WellFormed(hex: string) {
    var h := RemoveFirstHash(hex);
    (|h| == 3 || |h| == 6) && AllHex(h)
  }

  /** The short form with every digit doubled. */
  function Doubled(h: string): (v: string)
    ensures |v| == 2 * |h|
    ensures forall i :: 0 <= i < |h| ==> v[2 * i] == h[i] && v[2 * i + 1] == h[i]
  {
    if |h| == 0 then ""
    else [h[0], h[0]] + Doubled(h[1..])
  }

  /** Doubling keeps every character a hex digit. */
  lemma DoubledHex(h: string)
    requires AllHex(h)
    ensures AllHex(Doubled(h))
  {
    var v := Doubled(h);
    forall i | 0 <= i < |v| ensures IsHexDigit(v[i]) {
      assert v[2 * (i / 2) + i % 2] == h[i / 2];
    }
  }

  /** Channel `k` of a 24-bit value, `(n >> 8k) & 255`. */
  function Channel(n: nat, shift: nat): (c: int)
    requires shift == 1 || shift == 256 || shift == 65536
    ensures 0 <= c < 256
  {
    (n / shift) % 256
  }

  /** One more digit on the right: sixteen times the value, plus the digit. */
  lemma HexValueSnoc(v: string, k: nat)
    requires k < |v| && AllHex(v)
    ensures HexValue(v[..k + 1]) == HexValue(v[..k]) * 16 + HexDigitValue(v[k])
  {
    assert v[..k + 1][..k] == v[..k];
  }

  /** Two hex digits. */
  lemma TwoDigits(w: string)
    requires |w| == 2 && AllHex(w)
    ensures HexValue(w) == HexDigitValue(w[0]) * 16 + HexDigitValue(w[1])
  {
    HexValueSnoc(w, 0);
    HexValueSnoc(w, 1);
    assert w[..2] == w && w[..0] == [];
  }

  /** The last two digits are the value modulo 256. */
  lemma LastTwoDigits(v: string)
    requires |v| >= 2 && AllHex(v)
    ensures HexValue(v) == HexValue(v[..|v| - 2]) * 256 + HexValue(v[|v| - 2..])
    ensures HexValue(v[|v| - 2..]) < 256
  {
    var n := |v|;
    var a, b := HexDigitValue(v[n - 2]), HexDigitValue(v[n - 1]);
    HexValueSnoc(v, n - 2);
    HexValueSnoc(v, n - 1);
    assert v[..n] == v;
    var w := v[n - 2..];
    assert w[0] == v[n - 2] && w[1] == v[n - 1];
    TwoDigits(w);
    var x := HexValue(v[..n - 2]);
    assert HexValue(v) == (x * 16 + a) * 16 + b;
    assert HexValue(w) == a * 16 + b;
  }

  /** Six hex digits are three two-digit channels. */
  lemma SixDigits(v: string)
    requires |v| == 6 && AllHex(v)
    ensures HexValue(v) == HexValue(v[..2]) * 65536 + HexValue(v[2..4]) * 256 + HexValue(v[4..])
    ensures HexValue(v[..2]) < 256 && HexValue(v[2..4]) < 256 && HexValue(v[4..]) < 256
  {
    LastTwoDigits(v);
    var u := v[..4];
    LastTwoDigits(u);
    assert u[..2] == v[..2] && u[2..] == v[2..4];
    TwoDigits(v[..2]);
  }

  /** Splitting a 24-bit value into channels gives the parts back. */
  lemma ChannelsOf(a: int, b: int, c: int)
    requires 0 <= a < 256 && 0 <= b < 256 && 0 <= c < 256
    ensures Channel(a * 65536 + b * 256 + c, 65536) == a
    ensures Channel(a * 65536 + b * 256 + c, 256) == b
    ensures Channel(a * 65536 + b * 256 + c, 1) == c
  {
    var n := a * 65536 + b * 256 + c;
    assert n / 65536 == a by {
      assert a * 65536 <= n < (a + 1) * 65536;
    }
    assert n / 256 == a * 256 + b by {
      assert (a * 256 + b) * 256 <= n < (a * 256 + b + 1) * 256;
    }
    assert (a * 256 + b) % 256 == b by {
      assert a * 256 + b == a * 256 + b;
    }
    assert n % 256 == c by {
      assert n == (a * 256 + b) * 256 + c;
    }
  }

  /** The channels of six hex digits are the values of their digit pairs. */
  lemma ChannelsOfSix(v: string)
    requires |v| == 6 && AllHex(v)
    ensures Channel(HexValue(v), 65536) == HexValue(v[..2])
    ensures Channel(HexValue(v), 256) == HexValue(v[2..4])
    ensures Channel(HexValue(v), 1) == HexValue(v[4..])
  {
    SixDigits(v);
    ChannelsOf(HexValue(v[..2]), HexValue(v[2..4]), HexValue(v[4..]));
  }

  /** `hexToRgb`: the first '#' dropped, a 3-digit colour expanded digit by
      digit, then red, green and blue from the 24-bit value. Each channel is
      the value of its two digits. */
  function HexToRgb(hex: string): (c: Rgb)
    requires WellFormed(hex)
    ensures var h := RemoveFirstHash(hex);
            var v := if |h| == 3 then Doubled(h) else h;
            AllHex(v) && |v| == 6
            && c == Rgb(HexValue(v[..2]), HexValue(v[2..4]), HexValue(v[4..]))
    ensures 0 <= c.r < 256 && 0 <= c.g < 256 && 0 <= c.b < 256
  {
    var h := RemoveFirstHash(hex);
    var v := if |h| == 3 then Doubled(h) else h;
    assert AllHex(v) by {
      if |h| == 3 {
        DoubledHex(h);
      }
    }
    var n := HexValue(v);
    ChannelsOfSix(v);
    Rgb(Channel(n, 65536), Channel(n, 256), Channel(n, 1))
  }

  /** The short form "#rgb" reads like "#rrggbb". */
  lemma ShortFormDoubles(h: string)
    requires |h| == 3 && AllHex(h) && '#' !in h
    ensures WellFormed("#" + h) && WellFormed("#" + Doubled(h))
    ensures HexToRgb("#" + h) == HexToRgb("#" + Doubled(h))
  {
    assert ("#" + h)[1..] == h;
    var d := Doubled(h);
    assert '#' !in d by {
      forall i | 0 <= i < 6 ensures d[i] != '#' {
        assert d[2 * (i / 2) + i % 2] == h[i / 2];
      }
    }
    assert ("#" + d)[1..] == d;
    DoubledHex(h);
  }

  /** The leading '#' is optional. */
  lemma HashOptional(h: string)
    requires '#' !in h && WellFormed(h)
    ensures WellFormed("#" + h) && HexToRgb("#" + h) == HexToRgb(h)
  {
    assert ("#" + h)[1..] == h;
  }

  /** The relative luminance `(0.2126 r + 0.7152 g + 0.0722 b) / 255`. */
  function Luminance(c: Rgb): real {
    (0.2126 * c.r as real + 0.7152 * c.g as real + 0.0722 * c.b as real) / 255.0
  }

  /** The coefficients sum to 1, so channels in 0..255 give a luminance in [0, 1]. */
  lemma LuminanceBounds(c: Rgb)
    requires 0 <= c.r < 256 && 0 <= c.g < 256 && 0 <= c.b < 256
    ensures 0.0 <= Luminance(c) <= 1.0
  {
  }

  /** `contrastOn`: black text on a light colour (luminance above 0.6),
      white text otherwise. */
  function ContrastOn(hex: string): (r: string)
    requires WellFormed(hex)
    ensures r == "#000000" <==> Luminance(HexToRgb(hex)) > 0.6
    ensures r == "#ffffff" <==> Luminance(HexToRgb(hex)) <= 0.6
  {
    if Luminance(HexToRgb(hex)) > 0.6 then "#000000" else "#ffffff"
  }

  /** "#ffffff" reads as full red, green and blue. */
  lemma RgbOfWhite()
    ensures WellFormed("#ffffff") && HexToRgb("#ffffff") == Rgb(255, 255, 255)
  {
    var w := "ffffff";
    assert RemoveFirstHash("#ffffff") == w;
    assert w[..2] == "ff" && w[2..4] == "ff" && w[4..] == "ff";
    assert "ff"[..1] == "f" && "f"[..0] == "";
  }

  /** "#000000" reads as no red, green or blue. */
  lemma RgbOfBlack()
    ensures WellFormed("#000000") && HexToRgb("#000000") == Rgb(0, 0, 0)
  {
    var k := "000000";
    assert RemoveFirstHash("#000000") == k;
    assert k[..2] == "00" && k[2..4] == "00" && k[4..] == "00";
    assert "00"[..1] == "0" && "0"[..0] == "";
  }

  /** White takes black text and black takes white text. */
  lemma ContrastOfWhiteAndBlack()
    ensures WellFormed("#ffffff") && ContrastOn("#ffffff") == "#000000"
    ensures WellFormed("#000000") && ContrastOn("#000000") == "#ffffff"
  {
    RgbOfWhite();
    RgbOfBlack();
  }
}
