/**
 * Colour tokens of the fireworks script: the hex parse shared by `shadeColor`
 * and `hexToRgba`, the channel shading of `shadeColor`, its repacking through
 * `Number.prototype.toString(16)` and `padStart`, and the palette behind
 * `randomColor`.
 */
module Colors {
  import opened Optional
  import opened Random

  datatype Rgb = Rgb(r: int, g: int, b: int)

  /** What `hexToRgba` renders as `rgba(r,g,b,alpha)`. */
  datatype Rgba = Rgba(r: int, g: int, b: int, alpha: real)

  predicate IsChannel(v: int) { 0 <= v <= 255 }

  predicate IsColor(c: Rgb) { IsChannel(c.r) && IsChannel(c.g) && IsChannel(c.b) }

  // ---------------------------------------------------------------------------
  // Hex digits

  /** The value `parseInt` gives one digit in radix 16 (either case). */
  function HexValue(c: char): (v: Option<int>)
    ensures v.Some? <==> ('0' <= c <= '9' || 'a' <= c <= 'f' || 'A' <= c <= 'F')
    ensures v.Some? ==> 0 <= v.value < 16
  {
    if '0' <= c <= '9' then Some(c as int - '0' as int)
    else if 'a' <= c <= 'f' then Some(c as int - 'a' as int + 10)
    else if 'A' <= c <= 'F' then Some(c as int - 'A' as int + 10)
    else None
  }

  predicate IsHexDigit(c: char) { HexValue(c).Some? }

  /** The digits `toString(16)` writes. */
  predicate IsLowerHex(c: char) { '0' <= c <= '9' || 'a' <= c <= 'f' }

  /** The digit `toString(16)` writes for 0 <= d < 16. */
  function HexDigit(d: int): (c: char)
    requires 0 <= d < 16
    ensures IsLowerHex(c) && HexValue(c) == Some(d)
  {
    if d < 10 then ('0' as int + d) as char else ('a' as int + d - 10) as char
  }

  // ---------------------------------------------------------------------------
  // Parsing (script.js shadeColor lines 184-188, hexToRgba lines 123-127)

  /** The index of the first '#' of s. */
  function FirstHash(s: string): (i: nat)
    requires '#' in s
    ensures i < |s| && s[i] == '#' && '#' !in s[..i]
  {
    if s[0] == '#' then 0
    else
      assert s[1..][..FirstHash(s[1..])] == s[1..FirstHash(s[1..]) + 1];
      FirstHash(s[1..]) + 1
  }

  /** `s.replace('#', '')`: a string pattern removes its FIRST occurrence only. */
  function StripHash(s: string): (r: string)
    ensures '#' in s ==> |r| == |s| - 1 && r == s[..FirstHash(s)] + s[FirstHash(s) + 1..]
    ensures '#' !in s ==> r == s
  {
    if s == [] then []
    else if s[0] == '#' then
      assert FirstHash(s) == 0 && s[..0] == [];
      s[1..]
    else
      var t := StripHash(s[1..]);
      StripHashCons(s, t);
      [s[0]] + t
  }

  /** Putting back a first character that is not '#' in front of the stripped tail strips s. */
  lemma StripHashCons(s: string, t: string)
    requires s != [] && s[0] != '#'
    requires '#' in s[1..] ==> t == s[1..][..FirstHash(s[1..])] + s[1..][FirstHash(s[1..]) + 1..]
    requires '#' !in s[1..] ==> t == s[1..]
    ensures '#' in s ==> [s[0]] + t == s[..FirstHash(s)] + s[FirstHash(s) + 1..]
    ensures '#' !in s ==> [s[0]] + t == s
  {
    var u := s[1..];
    assert s == [s[0]] + u;
    if '#' in u {
      var j := FirstHash(u);
      assert FirstHash(s) == j + 1;
      ConsSplit(s[0], u, j);
    }
  }

  /** Removing entry j of u and then putting x in front removes entry j + 1 of [x] + u. */
  lemma ConsSplit<T>(x: T, u: seq<T>, j: nat)
    requires j < |u|
    ensures [x] + (u[..j] + u[j + 1..]) == ([x] + u)[..j + 1] + ([x] + u)[j + 2..]
  {
    assert ([x] + u)[..j + 1] == [x] + u[..j];
    assert ([x] + u)[j + 2..] == u[j + 1..];
  }

  /** A three-digit token is widened by doubling each digit; others are kept. */
  function Widen(s: string): (r: string)
    ensures |s| == 3 ==> |r| == 6 && forall i :: 0 <= i < 6 ==> r[i] == s[i / 2]
    ensures |s| != 3 ==> r == s
  {
    if |s| == 3 then [s[0], s[0], s[1], s[1], s[2], s[2]] else s
  }

  /** The first six characters are hex digits (anything after them is ignored). */
  predicate HasSixDigits(e: string)
  {
    |e| >= 6 && forall i :: 0 <= i < 6 ==> IsHexDigit(e[i])
  }

  /** `parseInt(a + b, 16)` for two hex digits. */
  function PairValue(a: char, b: char): (v: int)
    requires IsHexDigit(a) && IsHexDigit(b)
    ensures IsChannel(v)
  {
    16 * HexValue(a).value + HexValue(b).value
  }

  /**
   * The channels `parseInt(hex.substring(0,2),16)`, `(2,4)` and `(4,6)` after
   * removing '#' and widening a three-digit token. None for every token that is
   * not six hex digits after stripping and widening; JavaScript may still
   * compute channels there (a short last pair, a sign, leading blanks) or NaN.
   */
  function ParseRgb(hex: string): (c: Option<Rgb>)
    ensures c.Some? ==> IsColor(c.value)
    ensures c.Some? <==> HasSixDigits(Widen(StripHash(hex)))
  {
    var e := Widen(StripHash(hex));
    if HasSixDigits(e)
    then Some(Rgb(PairValue(e[0], e[1]), PairValue(e[2], e[3]), PairValue(e[4], e[5])))
    else None
  }

  // ---------------------------------------------------------------------------
  // Shading (script.js lines 189-193)

  function Abs(x: real): real { if x < 0.0 then -x else x }

  /** `Math.round`: the nearest integer, halves rounded toward +infinity. */
  function Round(x: real): (n: int)
    ensures n as real - 0.5 <= x < n as real + 0.5
  {
    (x + 0.5).Floor
  }

  /** The channel value `shadeColor` moves toward: 0 to darken, 255 to brighten. */
  function Target(percent: real): (t: int)
    ensures IsChannel(t)
    ensures t == 0 <==> percent < 0.0
  {
    if percent < 0.0 then 0 else 255
  }

  /** `Math.round((t - c) * p) + c`: channel c moved the fraction p of the way to t. */
  function Toward(c: int, t: int, p: real): (v: int)
    requires 0.0 <= p <= 1.0
    ensures c <= t ==> c <= v <= t
    ensures t <= c ==> t <= v <= c
  {
    TowardWithin(c, t, p);
    Round((t - c) as real * p) + c
  }

  /** The rounded move stays between the channel and its target. */
  lemma TowardWithin(c: int, t: int, p: real)
    requires 0.0 <= p <= 1.0
    ensures c <= t ==> 0 <= Round((t - c) as real * p) <= t - c
    ensures t <= c ==> t - c <= Round((t - c) as real * p) <= 0
  {
    RoundFraction(t - c, p);
  }

  /** A rounded fraction of an integer gap lies between 0 and the gap. */
  lemma RoundFraction(gap: int, p: real)
    requires 0.0 <= p <= 1.0
    ensures gap >= 0 ==> 0 <= Round(gap as real * p) <= gap
    ensures gap <= 0 ==> gap <= Round(gap as real * p) <= 0
  {
    var x := gap as real * p;
    if gap >= 0 {
      assert 0.0 <= x <= gap as real by { FractionOfGap(gap as real, p); }
      RoundWithin(x, 0, gap);
    } else {
      assert gap as real <= x <= 0.0 by { FractionOfGap(gap as real, p); }
      RoundWithin(x, gap, 0);
    }
  }

  /** The channel moved toward 255 (percent >= 0) or 0 (percent < 0) by |percent|/100. */
  function ShadeChannel(c: int, percent: real): (v: int)
    requires IsChannel(c) && -100.0 <= percent <= 100.0
    ensures percent >= 0.0 ==> c <= v <= 255
    ensures percent < 0.0 ==> 0 <= v <= c
  {
    Toward(c, Target(percent), Abs(percent) / 100.0)
  }

  /** 0 <= p <= 1 keeps gap * p between 0 and gap, whatever the sign of gap. */
  lemma FractionOfGap(gap: real, p: real)
    requires 0.0 <= p <= 1.0
    ensures gap >= 0.0 ==> 0.0 <= gap * p <= gap
    ensures gap <= 0.0 ==> gap <= gap * p <= 0.0
  {
    if gap > 0.0 {
      MulSigns(p, gap);
      MulSigns(1.0 - p, gap);
    } else if gap < 0.0 {
      MulSigns(p, -gap);
      MulSigns(1.0 - p, -gap);
    }
  }

  /** Shading by 0 percent leaves a channel as it is. */
  lemma ShadeChannelByZero(c: int)
    requires IsChannel(c)
    ensures ShadeChannel(c, 0.0) == c
  {
    assert Abs(0.0) / 100.0 == 0.0;
    assert ((255 - c) as real) * 0.0 == 0.0;
    assert Round(0.0) == 0;
  }

  /** Rounding a value between two integers stays between them. */
  lemma RoundWithin(x: real, lo: int, hi: int)
    requires lo as real <= x <= hi as real
    ensures lo <= Round(x) <= hi
  {
  }

  function Shade(c: Rgb, percent: real): (d: Rgb)
    requires IsColor(c) && -100.0 <= percent <= 100.0
    ensures IsColor(d)
  {
    Rgb(ShadeChannel(c.r, percent), ShadeChannel(c.g, percent), ShadeChannel(c.b, percent))
  }

  // ---------------------------------------------------------------------------
  // Packing (script.js line 194)

  /** `Number.prototype.toString(16)` of a non-negative integer: no leading zeros. */
  function ToHex(n: nat): (s: string)
    ensures |s| >= 1 && forall i :: 0 <= i < |s| ==> IsLowerHex(s[i])
    decreases n
  {
    if n < 16 then [HexDigit(n)] else ToHex(n / 16) + [HexDigit(n % 16)]
  }

  function Zeros(k: nat): (z: string)
    ensures |z| == k && forall i :: 0 <= i < k ==> z[i] == '0'
  {
    seq(k, _ => '0')
  }

  /** `s.padStart(width, '0')`. */
  function PadStart(s: string, width: nat): (r: string)
    ensures |r| == if |s| >= width then |s| else width
    ensures r[|r| - |s|..] == s
    ensures forall i :: 0 <= i < |r| - |s| ==> r[i] == '0'
  {
    if |s| >= width then s else Zeros(width - |s|) + s
  }

  /**
   * '#' followed by `(R<<16 | G<<8 | B).toString(16).padStart(6,'0')`; with every
   * channel in [0, 255] the shifted channels occupy disjoint bits, so the or is a sum.
   */
  function Pack(c: Rgb): (p: string)
    requires IsColor(c)
    ensures |p| >= 7 && p[0] == '#'
  {
    "#" + PadStart(ToHex(c.r * 65536 + c.g * 256 + c.b), 6)
  }

  /** `shadeColor(hex, percent)`; None for a token the parse does not accept. */
  function ShadeColor(hex: string, percent: real): (out: Option<string>)
    requires -100.0 <= percent <= 100.0
    ensures out.Some? <==> ParseRgb(hex).Some?
    ensures out.Some? ==> IsHexToken(out.value)
  {
    match ParseRgb(hex)
    case None => None
    case Some(c) =>
      PackIsToken(Shade(c, percent));
      Some(Pack(Shade(c, percent)))
  }

  /** '#' followed by exactly six lower-case hex digits. */
  predicate IsHexToken(s: string)
  {
    |s| == 7 && s[0] == '#' && forall i :: 1 <= i < 7 ==> IsLowerHex(s[i])
  }

  /**
   * `hex.startsWith('rgba') || hex.startsWith('rgb')`: the test that sends a
   * token to the pass-through branch (a token starting with "rgba" starts with "rgb").
   */
  predicate StartsWithRgb(s: string)
  {
    |s| >= 3 && s[0] == 'r' && s[1] == 'g' && s[2] == 'b'
  }

  /** The hex branch of `hexToRgba(hex, alpha)` (the rgb()/rgba() pass-through is not modelled). */
  function HexToRgba(hex: string, alpha: real): (c: Option<Rgba>)
    requires !StartsWithRgb(hex)
    ensures c.Some? <==> ParseRgb(hex).Some?
    ensures c.Some? ==> c.value.alpha == alpha && IsChannel(c.value.r) && IsChannel(c.value.g) && IsChannel(c.value.b)
  {
    match ParseRgb(hex)
    case None => None
    case Some(rgb) => Some(Rgba(rgb.r, rgb.g, rgb.b, alpha))
  }

  // ---------------------------------------------------------------------------
  // Digits of a packed colour

  /** Exactly `width` hex digits of n, most significant first (n mod 16^width). */
  function FixedHex(n: nat, width: nat): (s: string)
    ensures |s| == width
  {
    if width == 0 then [] else FixedHex(n / 16, width - 1) + [HexDigit(n % 16)]
  }

  function Pow16(k: nat): (p: nat)
    ensures p >= 1
  {
    if k == 0 then 1 else 16 * Pow16(k - 1)
  }

  /** The two digits of one channel. */
  function ByteHex(v: int): string
    requires IsChannel(v)
  {
    [HexDigit(v / 16), HexDigit(v % 16)]
  }

  lemma {:induction false} FixedHexOfZero(width: nat)
    ensures FixedHex(0, width) == Zeros(width)
  {
    if width > 0 {
      FixedHexOfZero(width - 1);
    }
  }

  /** Appending a digit to a padded string is padding one place less. */
  lemma PadStartSnoc(s: string, c: char, width: nat)
    requires width >= 1
    ensures PadStart(s + [c], width) == PadStart(s, width - 1) + [c]
  {
    if |s| + 1 < width {
      assert Zeros(width - |s| - 1) + (s + [c]) == (Zeros(width - 1 - |s|) + s) + [c];
    }
  }

  /** `toString(16)` padded to `width` is the fixed-width digit string, when n fits. */
  lemma {:induction false} PaddedHexIsFixed(n: nat, width: nat)
    requires width >= 1 && n < Pow16(width)
    ensures PadStart(ToHex(n), width) == FixedHex(n, width)
  {
    if n < 16 {
      FixedHexOfZero(width - 1);
      assert FixedHex(n, width) == FixedHex(0, width - 1) + [HexDigit(n)];
      PadStartSnoc([], HexDigit(n), width);
      assert PadStart([], width - 1) == Zeros(width - 1);
      assert [] + [HexDigit(n)] == [HexDigit(n)];
    } else {
      assert Pow16(1) == 16;
      PaddedHexIsFixed(n / 16, width - 1);
      PadStartSnoc(ToHex(n / 16), HexDigit(n % 16), width);
    }
  }

  /** Appending a byte lo to hi appends its two digits: the last two of `width + 2` digits. */
  lemma FixedHexByte(n: nat, hi: nat, lo: int, width: nat)
    requires IsChannel(lo) && n == hi * 256 + lo
    ensures FixedHex(n, width + 2) == FixedHex(hi, width) + ByteHex(lo)
  {
    assert n / 16 == 16 * hi + lo / 16;
    assert (n / 16) / 16 == hi;
    assert (n / 16) % 16 == lo / 16;
    assert n % 16 == lo % 16;
  }

  /** The packed token spells the three channels two digits each. */
  lemma PackDigits(c: Rgb)
    requires IsColor(c)
    ensures Pack(c) == "#" + (ByteHex(c.r) + ByteHex(c.g) + ByteHex(c.b))
  {
    var n := c.r * 65536 + c.g * 256 + c.b;
    SixDigitsFit(n);
    PaddedHexIsFixed(n, 6);
    ThreeBytes(n, c);
  }

  /** Six digits of a packed colour are the two digits of each channel. */
  lemma ThreeBytes(n: nat, c: Rgb)
    requires IsColor(c) && n == c.r * 65536 + c.g * 256 + c.b
    ensures FixedHex(n, 6) == ByteHex(c.r) + ByteHex(c.g) + ByteHex(c.b)
  {
    var hi := c.r * 256 + c.g;
    FixedHexByte(n, hi, c.b, 4);
    TwoBytes(hi, c.r, c.g);
  }

  /** Four digits of hi * 256 + lo are the two digits of each byte. */
  lemma TwoBytes(n: nat, hi: int, lo: int)
    requires IsChannel(hi) && IsChannel(lo) && n == hi * 256 + lo
    ensures FixedHex(n, 4) == ByteHex(hi) + ByteHex(lo)
  {
    FixedHexByte(n, hi, lo, 2);
    FixedHexByte(hi, 0, hi, 0);
    assert FixedHex(0, 0) == [];
  }

  /** 16^6 = 2^24: a packed colour fits in six digits. */
  lemma SixDigitsFit(n: nat)
    requires n < 16777216
    ensures n < Pow16(6)
  {
    assert Pow16(6) == 16777216;
  }

  lemma PackIsToken(c: Rgb)
    requires IsColor(c)
    ensures IsHexToken(Pack(c))
  {
    PackDigits(c);
    var d := ByteHex(c.r) + ByteHex(c.g) + ByteHex(c.b);
    assert |d| == 6 && forall i :: 0 <= i < 6 ==> IsLowerHex(d[i]);
    assert Pack(c) == "#" + d;
  }

  /** The two digits of a channel parse back to it. */
  lemma ByteParses(v: int)
    requires IsChannel(v)
    ensures var b := ByteHex(v); IsHexDigit(b[0]) && IsHexDigit(b[1]) && PairValue(b[0], b[1]) == v
  {
  }

  /** Parsing a packed colour gives back its channels. */
  lemma PackParses(c: Rgb)
    requires IsColor(c)
    ensures ParseRgb(Pack(c)) == Some(c)
  {
    var s := Pack(c);
    PackIsToken(c);
    TokenParses(s);
    PackDigits(c);
    var br, bg, bb := ByteHex(c.r), ByteHex(c.g), ByteHex(c.b);
    assert s[1] == br[0] && s[2] == br[1] && s[3] == bg[0] && s[4] == bg[1] && s[5] == bb[0] && s[6] == bb[1];
    ByteParses(c.r);
    ByteParses(c.g);
    ByteParses(c.b);
  }

  // ---------------------------------------------------------------------------
  // Properties of shadeColor

  /**
   * Round trip: the token `shadeColor` returns is '#' and six lower-case digits,
   * and the parse `hexToRgba` applies to it recovers exactly the shaded channels.
   */
  lemma ShadeRoundTrip(hex: string, percent: real, alpha: real)
    requires -100.0 <= percent <= 100.0
    requires ParseRgb(hex).Some?
    ensures var out := ShadeColor(hex, percent);
      && out.Some?
      && IsHexToken(out.value)
      && ParseRgb(out.value) == Some(Shade(ParseRgb(hex).value, percent))
      && HexToRgba(out.value, alpha) == Some(Rgba(
           ShadeChannel(ParseRgb(hex).value.r, percent),
           ShadeChannel(ParseRgb(hex).value.g, percent),
           ShadeChannel(ParseRgb(hex).value.b, percent),
           alpha))
  {
    var d := Shade(ParseRgb(hex).value, percent);
    PackParses(d);
    PackDigits(d);
  }

  /** Shading by 0 percent keeps every channel. */
  lemma ShadeByZero(hex: string)
    requires ParseRgb(hex).Some?
    ensures ShadeColor(hex, 0.0).Some?
    ensures ParseRgb(ShadeColor(hex, 0.0).value) == ParseRgb(hex)
  {
    var c := ParseRgb(hex).value;
    ShadeChannelByZero(c.r);
    ShadeChannelByZero(c.g);
    ShadeChannelByZero(c.b);
    assert Shade(c, 0.0) == c;
    PackParses(c);
  }

  /** A three-digit token shades like its six-digit widening. */
  lemma ShortTokenShadesAsWide(a: char, b: char, c: char, percent: real)
    requires -100.0 <= percent <= 100.0
    ensures ShadeColor(['#', a, b, c], percent) == ShadeColor(['#', a, a, b, b, c, c], percent)
  {
    assert StripHash(['#', a, b, c]) == [a, b, c];
    assert StripHash(['#', a, a, b, b, c, c]) == [a, a, b, b, c, c];
    assert Widen([a, b, c]) == [a, a, b, b, c, c];
  }

  /**
   * Brightening and then darkening by the same percentage is not the identity:
   * channel 0 brightened by 50 becomes 128, and 128 darkened by 50 becomes 64.
   */
  lemma ShadeIsNotInvertible()
    ensures ShadeChannel(0, 50.0) == 128
    ensures ShadeChannel(128, -50.0) == 64
  {
    assert Round(127.5) == 128;
    assert Round(-64.0) == -64;
  }

  // ---------------------------------------------------------------------------
  // Palette (script.js lines 172-175)

  const Palette: seq<string> :=
    ["#ffd166", "#ef476f", "#06d6a0", "#118ab2", "#ffd43b", "#f72585", "#ffa69e", "#9b5de5", "#00b4d8"]

  /** `randomColor()`: a palette entry picked with randInt(0, 8). */
  function RandomColor(u: real): (c: string)
    requires 0.0 <= u < 1.0
    ensures c in Palette
  {
    Palette[RandInt(0, |Palette| - 1, u)]
  }

  /** Every palette entry can be picked. */
  lemma RandomColorReaches(k: int)
    requires 0 <= k < |Palette|
    ensures exists u :: 0.0 <= u < 1.0 && RandomColor(u) == Palette[k]
  {
    RandIntReaches(0, |Palette| - 1, k);
    var u := k as real / |Palette| as real;
    assert RandomColor(u) == Palette[k];
  }

  /** A hex token parses: '#' is stripped and the six digits remain. */
  lemma TokenParses(s: string)
    requires IsHexToken(s)
    ensures ParseRgb(s).Some?
    ensures ParseRgb(s) == Some(Rgb(PairValue(s[1], s[2]), PairValue(s[3], s[4]), PairValue(s[5], s[6])))
  {
    assert FirstHash(s) == 0;
    assert StripHash(s) == s[1..];
    forall i | 0 <= i < 6
      ensures IsHexDigit(s[1..][i])
    {
      assert IsLowerHex(s[i + 1]);
    }
  }

  /** Every palette entry is a hex token. */
  lemma PaletteTokens()
    ensures forall c :: c in Palette ==> IsHexToken(c)
  {
  }

  /** Every palette entry parses. */
  lemma PaletteParses()
    ensures forall c :: c in Palette ==> ParseRgb(c).Some?
  {
    forall c | c in Palette
      ensures ParseRgb(c).Some?
    {
      PaletteTokens();
      TokenParses(c);
    }
  }
}
