/**
 * The text colour of a palette swatch: black or white, whichever contrasts
 * with the swatch's `#RRGGBB` background by the YIQ brightness rule.
 */
module ColorSwatch {

  predicate IsHexDigit(c: char) {
    '0' <= c <= '9' || 'a' <= c <= 'f' || 'A' <= c <= 'F'
  }

  /** The base-16 value of one digit, either case. */
  function HexDigitValue(c: char): (v: nat)
    requires IsHexDigit(c)
    ensures v < 16
  {
    if '0' <= c <= '9' then c as int - '0' as int
    else if 'a' <= c <= 'f' then c as int - 'a' as int + 10
    else c as int - 'A' as int + 10
  }

  /** A seven-character colour code: '#' and six hex digits. */
  predicate WellFormedHex(hex: string) {
    |hex| == 7 && hex[0] == '#' && forall k :: 1 <= k < 7 ==> IsHexDigit(hex[k])
  }

  /** The base-16 value of a string of exactly two hex digits. */
  function ParseHexPair(pair: string): (v: nat)
    requires |pair| == 2 && IsHexDigit(pair[0]) && IsHexDigit(pair[1])
    ensures v <= 255
  {
    16 * HexDigitValue(pair[0]) + HexDigitValue(pair[1])
  }

  /** The channel read from the two digits that start at index `start` (1, 3 or 5). */
  function Channel(hex: string, start: nat): (v: nat)
    requires WellFormedHex(hex) && (start == 1 || start == 3 || start == 5)
    ensures v <= 255
  {
    ParseHexPair(hex[start..start + 2])
  }

  function Red(hex: string): nat requires WellFormedHex(hex) { Channel(hex, 1) }
  function Green(hex: string): nat requires WellFormedHex(hex) { Channel(hex, 3) }
  function Blue(hex: string): nat requires WellFormedHex(hex) { Channel(hex, 5) }

  /**
   * The weighted brightness, as JavaScript computes it (a real-valued
   * division). Comparing it with 128 is the same as comparing the integer
   * weighted sum with 128000.
   */
  function Yiq(r: nat, g: nat, b: nat): (y: real)
    ensures y >= 0.0
    ensures y >= 128.0 <==> 299 * r + 587 * g + 114 * b >= 128000
  {
    ((r * 299) + (g * 587) + (b * 114)) as real / 1000.0
  }

  const BlackText: string := "#000000"
  const WhiteText: string := "#ffffff"

  /** `getContrastColor`: black text on bright backgrounds, white text on dark ones. */
  function ContrastColor(hex: string): (text: string)
    requires WellFormedHex(hex)
    ensures text == BlackText || text == WhiteText
    ensures text == BlackText <==> 299 * Red(hex) + 587 * Green(hex) + 114 * Blue(hex) >= 128000
  {
    var r := Channel(hex, 1);
    var g := Channel(hex, 3);
    var b := Channel(hex, 5);
    if Yiq(r, g, b) >= 128.0 then BlackText else WhiteText
  }

  /** The weights sum to 1000, so the brightness of byte channels lies in [0, 255]. */
  lemma YiqRange(r: nat, g: nat, b: nat)
    requires r <= 255 && g <= 255 && b <= 255
    ensures 0.0 <= Yiq(r, g, b) <= 255.0
    ensures r == 255 && g == 255 && b == 255 ==> Yiq(r, g, b) == 255.0
  {
  }

  lemma WhiteAndBlackExtremes()
    ensures ContrastColor("#FFFFFF") == BlackText
    ensures ContrastColor("#000000") == WhiteText
  {
    assert Channel("#FFFFFF", 1) == 255 && Channel("#FFFFFF", 3) == 255 && Channel("#FFFFFF", 5) == 255;
    assert Channel("#000000", 1) == 0 && Channel("#000000", 3) == 0 && Channel("#000000", 5) == 0;
  }

  /** Brightening any channel never turns black text into white text. */
  lemma ContrastMonotone(dark: string, bright: string)
    requires WellFormedHex(dark) && WellFormedHex(bright)
    requires Red(dark) <= Red(bright) && Green(dark) <= Green(bright) && Blue(dark) <= Blue(bright)
    ensures ContrastColor(dark) == BlackText ==> ContrastColor(bright) == BlackText
  {
  }

  /** The lower-case spelling of a hex digit. */
  function LowerDigit(c: char): char {
    if 'A' <= c <= 'F' then (c as int - 'A' as int + 'a' as int) as char else c
  }

  function LowerHex(hex: string): string {
    seq(|hex|, k requires 0 <= k < |hex| => LowerDigit(hex[k]))
  }

  lemma LowerDigitValue(c: char)
    requires IsHexDigit(c)
    ensures IsHexDigit(LowerDigit(c)) && HexDigitValue(LowerDigit(c)) == HexDigitValue(c)
  {
  }

  /** Digit case does not matter: `#ff6b6b` and `#FF6B6B` get the same text colour. */
  lemma ContrastIgnoresCase(hex: string)
    requires WellFormedHex(hex)
    ensures WellFormedHex(LowerHex(hex))
    ensures ContrastColor(LowerHex(hex)) == ContrastColor(hex)
  {
    var low := LowerHex(hex);
    forall k | 1 <= k < 7 ensures IsHexDigit(low[k]) && HexDigitValue(low[k]) == HexDigitValue(hex[k]) {
      LowerDigitValue(hex[k]);
    }
    assert Red(low) == Red(hex) && Green(low) == Green(hex) && Blue(low) == Blue(hex);
  }

  /** Two upper-case hex digits for a byte: the inverse of `ParseHexPair`. */
  function HexPair(v: nat): (pair: string)
    requires v <= 255
    ensures |pair| == 2 && IsHexDigit(pair[0]) && IsHexDigit(pair[1])
  {
    [DigitChar(v / 16), DigitChar(v % 16)]
  }

  function DigitChar(d: nat): (c: char)
    requires d < 16
    ensures IsHexDigit(c) && HexDigitValue(c) == d
  {
    if d < 10 then ('0' as int + d) as char else ('A' as int + d - 10) as char
  }

  lemma ParseHexPairRoundTrip(v: nat)
    requires v <= 255
    ensures ParseHexPair(HexPair(v)) == v
  {
  }
}
