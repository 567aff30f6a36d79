/**
 * Colour values and the `hexToRgb` parser of src/utils.js: a string matching
 * `^#?([a-f\d]{2})([a-f\d]{2})([a-f\d]{2})$` (case-insensitive) gives the three
 * channels read as base-16 pairs; anything else gives black.
 */
module Colors {

  type byte = x: int | 0 <= x < 256

  datatype Rgb = Rgb(r: byte, g: byte, b: byte)

  const Black := Rgb(0, 0, 0)

  /** `[a-f\d]` under the `i` flag. */
  predicate IsHexDigit(c: char)
  {
    ('0' <= c <= '9') || ('a' <= c <= 'f') || ('A' <= c <= 'F')
  }

  predicate AllHexDigits(s: string)
  {
    forall i :: 0 <= i < |s| ==> IsHexDigit(s[i])
  }

  /** `parseInt(c, 16)` of a single digit. */
  function DigitValue(c: char): (v: nat)
    requires IsHexDigit(c)
    ensures v < 16
  {
    if '0' <= c <= '9' then c as int - '0' as int
    else if 'a' <= c <= 'f' then c as int - 'a' as int + 10
    else c as int - 'A' as int + 10
  }

  /** `parseInt(pair, 16)` of a two-digit group. */
  function PairValue(hi: char, lo: char): (v: byte)
    requires IsHexDigit(hi) && IsHexDigit(lo)
    ensures v / 16 == DigitValue(hi) && v % 16 == DigitValue(lo)
  {
    16 * DigitValue(hi) + DigitValue(lo)
  }

  /** The language of the regular expression, written as its two shapes. */
  predicate IsHexColor(s: string)
  {
    || (|s| == 7 && s[0] == '#' && AllHexDigits(s[1..]))
    || (|s| == 6 && AllHexDigits(s))
  }

  /**
   * hexToRgb: drop one optional leading '#', then demand exactly six hex
   * digits. On success each channel is the value of its digit pair; on any
   * other input the result is black.
   */
  function HexToRgb(s: string): (c: Rgb)
    ensures IsHexColor(s) ==>
              var d := s[|s| - 6..];
              c == Rgb(16 * DigitValue(d[0]) + DigitValue(d[1]),
                       16 * DigitValue(d[2]) + DigitValue(d[3]),
                       16 * DigitValue(d[4]) + DigitValue(d[5]))
    ensures !IsHexColor(s) ==> c == Black
  {
    var digits := if |s| > 0 && s[0] == '#' then s[1..] else s;
    if |digits| == 6 && AllHexDigits(digits) then
      Rgb(PairValue(digits[0], digits[1]), PairValue(digits[2], digits[3]), PairValue(digits[4], digits[5]))
    else
      Black
  }

  /** The lower-case digit for a value below 16 (the form a colour input reports). */
  function HexDigit(v: nat): (c: char)
    requires v < 16
    ensures IsHexDigit(c) && DigitValue(c) == v
  {
    if v < 10 then ('0' as int + v) as char else ('a' as int + v - 10) as char
  }

  function HexPair(v: byte): (s: string)
    ensures |s| == 2 && IsHexDigit(s[0]) && IsHexDigit(s[1])
    ensures PairValue(s[0], s[1]) == v
  {
    [HexDigit(v / 16), HexDigit(v % 16)]
  }

  /** The `#rrggbb` spelling of a colour, the inverse direction of HexToRgb. */
  function ToHex(c: Rgb): (s: string)
    ensures |s| == 7 && s[0] == '#'
  {
    "#" + HexPair(c.r) + HexPair(c.g) + HexPair(c.b)
  }

  /** Every colour survives the trip through its `#rrggbb` spelling. */
  lemma HexRoundTrip(c: Rgb)
    ensures IsHexColor(ToHex(c))
    ensures HexToRgb(ToHex(c)) == c
  {
    var s := ToHex(c);
    var d := s[1..];
    assert d == HexPair(c.r) + HexPair(c.g) + HexPair(c.b);
    assert AllHexDigits(d);
  }

  /** Any parsed channel lies in 0..255, and the fallback is black. */
  lemma ChannelsInRange(s: string)
    ensures var c := HexToRgb(s); 0 <= c.r <= 255 && 0 <= c.g <= 255 && 0 <= c.b <= 255
    ensures HexToRgb(s) != Black ==> IsHexColor(s)
  {
  }

  /** The leading '#' is optional: with or without it the colour is the same. */
  lemma HashIsOptional(s: string)
    requires |s| == 0 || s[0] != '#'
    ensures HexToRgb("#" + s) == HexToRgb(s)
  {
    assert ("#" + s)[1..] == s;
  }

  /** Three-digit shorthand, wrong lengths, stray characters and a trailing character all fall back to black. */
  lemma RejectedForms()
    ensures HexToRgb("#fff") == Black
    ensures HexToRgb("#ffffff0") == Black
    ensures HexToRgb("#fffffg") == Black
    ensures HexToRgb("##ffffff") == Black
    ensures HexToRgb("") == Black
  {
    assert !IsHexDigit('g');
    assert !AllHexDigits("fffffg") by { assert "fffffg"[5] == 'g'; }
    assert !AllHexDigits("#ffffff") by { assert "#ffffff"[0] == '#'; }
  }

  lemma WhiteAndBlack()
    ensures HexToRgb("#ffffff") == Rgb(255, 255, 255)
    ensures HexToRgb("ffffff") == Rgb(255, 255, 255)
    ensures HexToRgb("#FFFFFF") == Rgb(255, 255, 255)
    ensures HexToRgb("#000000") == Black
  {
    assert AllHexDigits("ffffff");
    assert AllHexDigits("FFFFFF");
    assert AllHexDigits("000000");
    assert "#ffffff"[1..] == "ffffff";
    assert "#FFFFFF"[1..] == "FFFFFF";
  }
}
