// engine/math/datatypes/color.py: an RGBA colour with components nominally in [0, 1],
// its 8-bit channels, and its HTML hex form.
module Colors {
  import opened Wrappers
  import opened Vectors
  import PyStrings

  /** The four channels of a Color; the float32 storage is modelled by reals. */
  datatype Color = Color(r: real, g: real, b: real, a: real)

  /** Color() with no arguments: opaque black. */
  const DefaultColor: Color := Color(0.0, 0.0, 0.0, 1.0)

  /** Color.white(), lines 176-178. */
  const White: Color := Color(1.0, 1.0, 1.0, 1.0)

  /** The channel as an integer, lines 69-82: scaled by 255, clamped to [0, 255], and
      truncated by int(), which for a non-negative value is the floor. */
  function Channel8(x: real): (n: int)
    ensures 0 <= n <= 255
    ensures n as real <= Clamp(x * 255.0, 0.0, 255.0) < n as real + 1.0
    ensures x <= 0.0 ==> n == 0
    ensures x >= 1.0 ==> n == 255
  {
    Clamp(x * 255.0, 0.0, 255.0).Floor
  }

  function R8(c: Color): int { Channel8(c.r) }
  function G8(c: Color): int { Channel8(c.g) }
  function B8(c: Color): int { Channel8(c.b) }
  function A8(c: Color): int { Channel8(c.a) }

  /** The digits `format(n, "02x")` writes: 0-9 and lowercase a-f. */
  predicate IsLowerHex(ch: char) {
    '0' <= ch <= '9' || 'a' <= ch <= 'f'
  }

  /** The lowercase digit of a value below 16. */
  function HexDigit(k: int): (ch: char)
    requires 0 <= k < 16
    ensures IsLowerHex(ch)
  {
    if k < 10 then ('0' as int + k) as char else ('a' as int + k - 10) as char
  }

  /** The value of one hexadecimal digit, in either case. */
  function DigitValue(ch: char): (d: Option<int>)
    ensures d.Some? ==> 0 <= d.value < 16
    ensures d.Some? <==> IsLowerHex(ch) || 'A' <= ch <= 'F'
  {
    if '0' <= ch <= '9' then Some(ch as int - '0' as int)
    else if 'a' <= ch <= 'f' then Some(ch as int - 'a' as int + 10)
    else if 'A' <= ch <= 'F' then Some(ch as int - 'A' as int + 10)
    else None
  }

  /** `format(n, "02x")` for a channel value: two lowercase digits, high one first. */
  function HexByte(n: int): (s: string)
    requires 0 <= n <= 255
    ensures |s| == 2 && IsLowerHex(s[0]) && IsLowerHex(s[1])
  {
    [HexDigit(n / 16), HexDigit(n % 16)]
  }

  /** to_html, lines 132-136: the channels as two-digit lowercase hex, alpha last and only
      when asked for. */
  function ToHtml(c: Color, withAlpha: bool): (s: string)
    ensures |s| == if withAlpha then 8 else 6
    ensures forall i :: 0 <= i < |s| ==> IsLowerHex(s[i])
  {
    HexChannels(R8(c), G8(c), B8(c), A8(c), withAlpha)
  }

  /** Channel values written as to_html writes them. */
  function HexChannels(r: int, g: int, b: int, a: int, withAlpha: bool): (s: string)
    requires 0 <= r <= 255 && 0 <= g <= 255 && 0 <= b <= 255 && 0 <= a <= 255
    ensures |s| == if withAlpha then 8 else 6
    ensures forall i :: 0 <= i < |s| ==> IsLowerHex(s[i])
  {
    var rgb := HexByte(r) + HexByte(g) + HexByte(b);
    if withAlpha then rgb + HexByte(a) else rgb
  }

  /** A run of n '#' characters. */
  function Hashes(n: nat): (s: string)
    ensures |s| == n
  {
    if n == 0 then [] else "#" + Hashes(n - 1)
  }

  /** str.lstrip("#"): every leading '#' removed, not only one. */
  function StripHashes(s: string): (t: string)
    ensures |t| <= |s|
    ensures |t| > 0 ==> t[0] != '#'
  {
    if |s| > 0 && s[0] == '#' then StripHashes(s[1..]) else s
  }

  /** What lstrip("#") removes is a run of '#', and what it keeps is the rest. */
  lemma {:induction false} StripsOnlyHashes(s: string)
    ensures s == Hashes(|s| - |StripHashes(s)|) + StripHashes(s)
  {
    if |s| > 0 && s[0] == '#' {
      StripsOnlyHashes(s[1..]);
      assert s == "#" + s[1..];
    } else {
      assert Hashes(0) + s == s;
    }
  }

  /** int(s, 16) for the two-character slices from_hex takes, given as their two
      characters: two digits; or one digit after a sign, or next to whitespace (what
      str.isspace accepts); anything else raises ValueError. */
  function ParsePair(hi: char, lo: char): (r: Outcome<int>)
    ensures r.Raised? ==> r.exc == ValueError
    ensures r.Ok? ==> -15 <= r.value <= 255
    ensures DigitValue(hi).Some? && DigitValue(lo).Some? ==>
              r == Ok(16 * DigitValue(hi).value + DigitValue(lo).value)
  {
    var d0, d1 := DigitValue(hi), DigitValue(lo);
    if d0.Some? && d1.Some? then Ok(16 * d0.value + d1.value)
    else if d1.Some? && hi == '+' then Ok(d1.value)
    else if d1.Some? && hi == '-' then Ok(-d1.value)
    else if d1.Some? && PyStrings.IsWhitespace(hi) then Ok(d1.value)
    else if d0.Some? && PyStrings.IsWhitespace(lo) then Ok(d0.value)
    else Raised(ValueError)
  }

  /** One channel of from_hex: the pair at `at`, over 255. */
  function ParseChannel(s: string, at: nat): (r: Outcome<real>)
    requires at + 2 <= |s|
  {
    match ParsePair(s[at], s[at + 1])
    case Raised(x) => Raised(x)
    case Ok(n) => Ok(n as real / 255.0)
  }

  /** from_hex, lines 159-174: leading '#' characters are dropped; six digits give an
      opaque colour, eight give one with alpha; any other length gives Color(). The
      channels are read left to right, and the first pair int() does not accept raises
      ValueError. */
  function FromHex(s: string): (r: Outcome<Color>)
    ensures |StripHashes(s)| != 6 && |StripHashes(s)| != 8 ==> r == Ok(DefaultColor)
    ensures r.Raised? ==> r.exc == ValueError
  {
    FromDigits(StripHashes(s))
  }

  /** The part of from_hex after the '#' characters are gone. */
  function FromDigits(t: string): (r: Outcome<Color>)
    ensures |t| != 6 && |t| != 8 ==> r == Ok(DefaultColor)
    ensures r.Raised? ==> r.exc == ValueError
  {
    if |t| != 6 && |t| != 8 then Ok(DefaultColor)
    else
      match ParseChannel(t, 0)
      case Raised(x) => Raised(x)
      case Ok(red) =>
        match ParseChannel(t, 2)
        case Raised(x) => Raised(x)
        case Ok(green) =>
          match ParseChannel(t, 4)
          case Raised(x) => Raised(x)
          case Ok(blue) =>
            if |t| == 6 then Ok(Color(red, green, blue, 1.0))
            else
              match ParseChannel(t, 6)
              case Raised(x) => Raised(x)
              case Ok(alpha) => Ok(Color(red, green, blue, alpha))
  }

  /** Color / number, lines 104-108: dividing by zero gives opaque black instead of
      raising. */
  function Divide(c: Color, k: real): (r: Color)
    ensures k == 0.0 ==> r == Color(0.0, 0.0, 0.0, 1.0)
  {
    if k == 0.0 then Color(0.0, 0.0, 0.0, 1.0) else Color(c.r / k, c.g / k, c.b / k, c.a / k)
  }

  /** Color * number, lines 98-99. */
  function Times(c: Color, k: real): Color {
    Color(c.r * k, c.g * k, c.b * k, c.a * k)
  }

  /** Color * Color, lines 100-101: modulation, channel by channel. */
  function Modulated(c: Color, d: Color): Color {
    Color(c.r * d.r, c.g * d.g, c.b * d.b, c.a * d.a)
  }

  /** lerp, lines 111-118: channel by channel. */
  function LerpColor(c: Color, to: Color, weight: real): Color {
    Color(Lerp(c.r, to.r, weight), Lerp(c.g, to.g, weight), Lerp(c.b, to.b, weight), Lerp(c.a, to.a, weight))
  }

  /** inverted, lines 120-122. */
  function Inverted(c: Color): Color {
    Color(1.0 - c.r, 1.0 - c.g, 1.0 - c.b, c.a)
  }

  /** lightened and darkened, lines 124-130: a lerp towards opaque white or black. */
  function Lightened(c: Color, amount: real): Color {
    LerpColor(c, Color(1.0, 1.0, 1.0, 1.0), amount)
  }

  function Darkened(c: Color, amount: real): Color {
    LerpColor(c, DefaultColor, amount)
  }

  /** A digit reads back as its value. */
  lemma DigitRoundTrip(k: int)
    requires 0 <= k < 16
    ensures DigitValue(HexDigit(k)) == Some(k)
  {
  }

  /** A pair written by `format(n, "02x")` reads back as n. */
  lemma {:induction false} HexByteParses(n: int)
    requires 0 <= n <= 255
    ensures ParsePair(HexByte(n)[0], HexByte(n)[1]) == Ok(n)
  {
    DigitRoundTrip(n / 16);
    DigitRoundTrip(n % 16);
  }

  /** The channel of from_hex at `at` reads the pair written there. */
  lemma {:induction false} ChannelParses(t: string, at: nat, n: int)
    requires 0 <= n <= 255 && at + 2 <= |t| && t[at] == HexByte(n)[0] && t[at + 1] == HexByte(n)[1]
    ensures ParseChannel(t, at) == Ok(n as real / 255.0)
  {
    HexByteParses(n);
  }

  /** The hex strings to_html writes read back as their channel values over 255, with
      alpha 1 when only six digits were written. */
  lemma {:induction false} HexRoundTrip(r: int, g: int, b: int, a: int, withAlpha: bool)
    requires 0 <= r <= 255 && 0 <= g <= 255 && 0 <= b <= 255 && 0 <= a <= 255
    ensures FromDigits(HexChannels(r, g, b, a, withAlpha))
            == Ok(Color(r as real / 255.0, g as real / 255.0, b as real / 255.0,
                        if withAlpha then a as real / 255.0 else 1.0))
  {
    var t := HexChannels(r, g, b, a, withAlpha);
    ChannelParses(t, 0, r);
    ChannelParses(t, 2, g);
    ChannelParses(t, 4, b);
    if withAlpha {
      ChannelParses(t, 6, a);
    }
  }

  /** to_html then from_hex, after any number of '#': the 8-bit channels come back over
      255, and alpha is 1 when it was not written. */
  lemma {:induction false} HtmlRoundTrip(c: Color, withAlpha: bool, hashes: nat)
    ensures FromHex(Hashes(hashes) + ToHtml(c, withAlpha))
            == Ok(Color(R8(c) as real / 255.0, G8(c) as real / 255.0, B8(c) as real / 255.0,
                        if withAlpha then A8(c) as real / 255.0 else 1.0))
  {
    var t := HexChannels(R8(c), G8(c), B8(c), A8(c), withAlpha);
    assert t[0] != '#' by { assert IsLowerHex(t[0]); }
    StripHashesPrefix(hashes, t);
    HexRoundTrip(R8(c), G8(c), B8(c), A8(c), withAlpha);
  }

  /** lstrip("#") removes exactly the leading run of '#' before a string that does not
      start with one. */
  lemma {:induction false} StripHashesPrefix(hashes: nat, t: string)
    requires |t| > 0 ==> t[0] != '#'
    ensures StripHashes(Hashes(hashes) + t) == t
    decreases hashes
  {
    var s := Hashes(hashes) + t;
    if hashes > 0 {
      assert s[1..] == Hashes(hashes - 1) + t;
      StripHashesPrefix(hashes - 1, t);
    } else {
      assert s == t;
    }
  }

  /** Dividing by a non-zero number and multiplying back restores the colour. */
  lemma DivideUndoesTimes(c: Color, k: real)
    requires k != 0.0
    ensures Times(Divide(c, k), k) == c
  {
  }

  /** lerp with weight 0 is the colour itself and with weight 1 the target. */
  lemma LerpEnds(c: Color, to: Color)
    ensures LerpColor(c, to, 0.0) == c
    ensures LerpColor(c, to, 1.0) == to
  {
  }

  /** inverted keeps alpha and undoes itself. */
  lemma InvertedInvolution(c: Color)
    ensures Inverted(c).a == c.a
    ensures Inverted(Inverted(c)) == c
  {
  }

  /** Modulating by white changes nothing, from either side. */
  lemma WhiteModulates(c: Color)
    ensures Modulated(White, c) == c && Modulated(c, White) == c
  {
  }

  /** Lightening and darkening by 0 change nothing; by 1 they give white and black,
      alpha included. */
  lemma LightenDarkenEnds(c: Color)
    ensures Lightened(c, 0.0) == c && Darkened(c, 0.0) == c
    ensures Lightened(c, 1.0) == Color(1.0, 1.0, 1.0, 1.0) && Darkened(c, 1.0) == DefaultColor
  {
    LerpEnds(c, Color(1.0, 1.0, 1.0, 1.0));
    LerpEnds(c, DefaultColor);
  }
}
