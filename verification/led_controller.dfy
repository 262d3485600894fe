/**
 * The static colour mixer of the `LedController` interface: the three clock
 * hands are additive primaries, hour red, minute green, second blue, each
 * channel fully on or fully off, printed as `#rrggbb` in lower-case hex.
 */
module LedController {

  /** The hex digit of `k` as `%x` prints it (lower case). */
  function HexDigit(k: nat): (c: char)
    requires k < 16
    ensures IsLowerHex(c)
  {
    if k < 10 then ('0' as int + k) as char else ('a' as int + k - 10) as char
  }

  predicate IsLowerHex(c: char)
  {
    '0' <= c <= '9' || 'a' <= c <= 'f'
  }

  /** The value of a lower-case hex digit. */
  function HexValue(c: char): (k: nat)
    requires IsLowerHex(c)
    ensures k < 16
  {
    if c <= '9' then c as int - '0' as int else c as int - 'a' as int + 10
  }

  lemma HexDigitValue(k: nat)
    requires k < 16
    ensures HexValue(HexDigit(k)) == k
  {
  }

  /** `%02x`: a byte as exactly two lower-case hex digits, zero padded. */
  function Hex2(n: nat): (s: string)
    requires n < 256
    ensures |s| == 2 && IsLowerHex(s[0]) && IsLowerHex(s[1])
  {
    [HexDigit(n / 16), HexDigit(n % 16)]
  }

  /** Reads back two hex digits. */
  function ParseHex2(s: string): (n: nat)
    requires |s| == 2 && IsLowerHex(s[0]) && IsLowerHex(s[1])
    ensures n < 256
  {
    16 * HexValue(s[0]) + HexValue(s[1])
  }

  /** Reading back what `%02x` printed gives the byte again. */
  lemma Hex2RoundTrip(n: nat)
    requires n < 256
    ensures ParseHex2(Hex2(n)) == n
  {
    HexDigitValue(n / 16);
    HexDigitValue(n % 16);
  }

  /** The channel level for one hand: 0xFF when the hand is here, 0 otherwise. */
  function Level(present: bool): nat
  {
    if present then 0xFF else 0
  }

  /** The colour all three hands absent give; `showTime` switches such an LED off. */
  const Black: string := "#000000"

  /** `mixColors(hour, minute, second)`. */
  function MixColors(hour: bool, minute: bool, second: bool): (c: string)
    ensures |c| == 7 && c[0] == '#'
    ensures forall i :: 1 <= i < 7 ==> IsLowerHex(c[i])
    ensures c[1..3] == (if hour then "ff" else "00")
    ensures c[3..5] == (if minute then "ff" else "00")
    ensures c[5..7] == (if second then "ff" else "00")
  {
    var r := Hex2(Level(hour));
    var g := Hex2(Level(minute));
    var b := Hex2(Level(second));
    var c := "#" + r + g + b;
    assert c[1..3] == r by { assert c[1] == r[0] && c[2] == r[1]; }
    assert c[3..5] == g by { assert c[3] == g[0] && c[4] == g[1]; }
    assert c[5..7] == b by { assert c[5] == b[0] && c[6] == b[1]; }
    c
  }

  /** Reads a `#rrggbb` colour back into its three channel levels. */
  function DecodeColor(c: string): (rgb: (nat, nat, nat))
    requires |c| == 7 && forall i :: 1 <= i < 7 ==> IsLowerHex(c[i])
  {
    (ParseHex2(c[1..3]), ParseHex2(c[3..5]), ParseHex2(c[5..7]))
  }

  /** Each hand drives its own channel and nothing else. */
  lemma MixColorsChannels(hour: bool, minute: bool, second: bool)
    ensures DecodeColor(MixColors(hour, minute, second)) == (Level(hour), Level(minute), Level(second))
  {
    var c := MixColors(hour, minute, second);
    assert c[1..3] == Hex2(Level(hour));
    assert c[3..5] == Hex2(Level(minute));
    assert c[5..7] == Hex2(Level(second));
    Hex2RoundTrip(Level(hour));
    Hex2RoundTrip(Level(minute));
    Hex2RoundTrip(Level(second));
  }

  /** Distinct hand combinations give distinct colours. */
  lemma MixColorsInjective(h1: bool, m1: bool, s1: bool, h2: bool, m2: bool, s2: bool)
    requires MixColors(h1, m1, s1) == MixColors(h2, m2, s2)
    ensures h1 == h2 && m1 == m2 && s1 == s2
  {
    MixColorsChannels(h1, m1, s1);
    MixColorsChannels(h2, m2, s2);
  }

  /** Black is produced by exactly one input: no hand at all. */
  lemma MixColorsBlackIff(hour: bool, minute: bool, second: bool)
    ensures MixColors(hour, minute, second) == Black <==> !hour && !minute && !second
  {
    var c := MixColors(hour, minute, second);
    if !hour && !minute && !second {
      assert c == "#" + "00" + "00" + "00";
    }
    if c == Black {
      assert c[1..3] == "00" && c[3..5] == "00" && c[5..7] == "00";
    }
  }

  /** Sample colours: red, red and green, green and blue, all three, none. */
  lemma MixColorsExamples()
    ensures MixColors(true, false, false) == "#ff0000"
    ensures MixColors(true, true, false) == "#ffff00"
    ensures MixColors(false, true, true) == "#00ffff"
    ensures MixColors(true, true, true) == "#ffffff"
    ensures MixColors(false, false, false) == Black
  {
    assert MixColors(true, false, false) == "#" + "ff" + "00" + "00";
    assert MixColors(true, true, false) == "#" + "ff" + "ff" + "00";
    assert MixColors(false, true, true) == "#" + "00" + "ff" + "ff";
    assert MixColors(true, true, true) == "#" + "ff" + "ff" + "ff";
    MixColorsBlackIff(false, false, false);
  }
}
