/** `buttonRippleForBackground`: the ripple colour of a button, through hue and saturation, and back. */
module Ripple {
  import opened Options

  /** Colours over the real numbers, from 0 to 255 */
  datatype Rgb = Rgb(red: real, green: real, blue: real)

  function Max(a: real, b: real): real { if a < b then b else a }

  function Min(a: real, b: real): real { if b < a then b else a }

  function Abs(a: real): real { if a < 0.0 then -a else a }

  function Maximum(c: Rgb): real { Max(c.red, Max(c.green, c.blue)) }

  function Minimum(c: Rgb): real { Min(c.red, Min(c.green, c.blue)) }

  /** The remainder of `%`, which has the sign of its left operand */
  function Remainder(a: real, b: real): real
    requires b > 0.0
  {
    if a < 0.0 then -(-a - b * (-a / b).Floor as real) else a - b * (a / b).Floor as real
  }

  // ----- The conversion -----

  function Hue(c: Rgb): real {
    var delta := Maximum(c) - Minimum(c);
    var hue :=
      if delta == 0.0 then 0.0
      else if Maximum(c) == c.red then 60.0 * Remainder((c.green - c.blue) / delta, 6.0)
      else if Maximum(c) == c.green then 60.0 * ((c.blue - c.red) / delta + 2.0)
      else 60.0 * ((c.red - c.green) / delta + 4.0);
    if hue < 0.0 then hue + 360.0 else hue
  }

  /** How far the middle channel is on its way between the others */
  function Fraction(hue: real): real { 1.0 - Abs(Remainder(hue / 60.0, 2.0) - 1.0) }

  /** The channels without the part they have in common */
  function Channels(hue: real, chroma: real, x: real): Rgb {
    if hue < 60.0 then Rgb(chroma, x, 0.0)
    else if hue < 120.0 then Rgb(x, chroma, 0.0)
    else if hue < 180.0 then Rgb(0.0, chroma, x)
    else if hue < 240.0 then Rgb(0.0, x, chroma)
    else if hue < 300.0 then Rgb(x, 0.0, chroma)
    else Rgb(chroma, 0.0, x)
  }

  function Chroma(c: Rgb, value: real): real {
    value * (if Maximum(c) == 0.0 then 0.0 else (Maximum(c) - Minimum(c)) / Maximum(c))
  }

  function Part(chroma: real, fraction: real): real { chroma * fraction }

  /** The colour with the same hue and saturation and another value */
  function WithValue(c: Rgb, value: real): Rgb {
    var chroma := Chroma(c, value);
    var x := Part(chroma, Fraction(Hue(c)));
    var m := value - chroma;
    var channels := Channels(Hue(c), chroma, x);
    Rgb(channels.red + m, channels.green + m, channels.blue + m)
  }

  function Share(channel: real, maximum: real, value: real): real
    requires maximum > 0.0
  {
    channel * value / maximum
  }

  /** The plain way: every channel in the same proportion */
  function Scaled(c: Rgb, value: real): Rgb
    requires Maximum(c) > 0.0
  {
    var maximum := Maximum(c);
    Rgb(Share(c.red, maximum, value), Share(c.green, maximum, value), Share(c.blue, maximum, value))
  }

  predicate IsColor(c: Rgb) { 0.0 <= c.red <= 255.0 && 0.0 <= c.green <= 255.0 && 0.0 <= c.blue <= 255.0 }

  // ----- The six sectors -----

  /** The way up and down between the corners of the hue circle */
  lemma FractionIs(hue: real, sector: real)
    requires 0.0 <= sector <= 6.0 && hue == 60.0 * sector
    ensures Fraction(hue) ==
            if sector <= 1.0 then sector else if sector <= 2.0 then 2.0 - sector
            else if sector <= 3.0 then sector - 2.0 else if sector <= 4.0 then 4.0 - sector
            else if sector <= 5.0 then sector - 4.0 else 6.0 - sector
  {
    assert hue / 60.0 == sector;
    var half := sector / 2.0;
    assert sector < 2.0 ==> half.Floor == 0;
    assert 2.0 <= sector < 4.0 ==> half.Floor == 1;
    assert 4.0 <= sector < 6.0 ==> half.Floor == 2;
    assert sector == 6.0 ==> half.Floor == 3;
  }

  /** A quotient of at most one is its own remainder. */
  lemma SmallRemainder(a: real)
    requires -1.0 <= a <= 1.0
    ensures Remainder(a, 6.0) == a
  {
    assert a >= 0.0 ==> (a / 6.0).Floor == 0;
    assert a < 0.0 ==> (-a / 6.0).Floor == 0;
  }

  /** How far one channel is above another, measured by the whole spread */
  function Lead(a: real, b: real, delta: real): real
    requires delta > 0.0
  {
    (a - b) / delta
  }

  lemma LeadBounds(a: real, b: real, delta: real)
    requires delta > 0.0 && -delta <= a - b <= delta
    ensures -1.0 <= Lead(a, b, delta) <= 1.0
    ensures a >= b <==> Lead(a, b, delta) >= 0.0
    ensures a - b > -delta ==> Lead(a, b, delta) > -1.0
    ensures a - b < delta ==> Lead(a, b, delta) < 1.0
    ensures Lead(a, b, delta) == -Lead(b, a, delta)
  {
    QuotientBounds(a - b, delta);
    Negated(a - b, b - a, delta);
  }

  lemma Negated(a: real, b: real, delta: real)
    requires delta > 0.0 && a == -b
    ensures a / delta == -(b / delta)
  {
    var q := b / delta;
    assert q * delta == b;
    assert (-q) * delta == a;
  }

  lemma QuotientBounds(a: real, delta: real)
    requires delta > 0.0 && -delta <= a <= delta
    ensures -1.0 <= a / delta <= 1.0
    ensures a >= 0.0 ==> a / delta >= 0.0
    ensures a < 0.0 ==> a / delta < 0.0
    ensures a > -delta ==> a / delta > -1.0
    ensures a < delta ==> a / delta < 1.0
  {
    var q := a / delta;
    assert q * delta == a;
  }

  lemma RedHue(c: Rgb)
    requires Maximum(c) == c.red > Minimum(c)
    ensures var lead := Lead(c.green, c.blue, c.red - Minimum(c));
            Hue(c) == if lead < 0.0 then 60.0 * lead + 360.0 else 60.0 * lead
  {
    hide Remainder;
    LeadBounds(c.green, c.blue, c.red - Minimum(c));
    SmallRemainder(Lead(c.green, c.blue, c.red - Minimum(c)));
  }

  lemma GreenHue(c: Rgb)
    requires Maximum(c) == c.green > c.red && c.green > Minimum(c)
    ensures Hue(c) == 60.0 * (Lead(c.blue, c.red, c.green - Minimum(c)) + 2.0)
  {
    hide Remainder;
    LeadBounds(c.blue, c.red, c.green - Minimum(c));
  }

  lemma BlueHue(c: Rgb)
    requires Maximum(c) == c.blue && c.blue > c.red && c.blue > c.green
    ensures Hue(c) == 60.0 * (Lead(c.red, c.green, c.blue - Minimum(c)) + 4.0)
  {
    hide Remainder;
    LeadBounds(c.red, c.green, c.blue - Minimum(c));
  }

  /** The top channel becomes the value, the bottom one its share, and the one in between its own. */
  lemma ChannelShares(c: Rgb, value: real, middle: real)
    requires Maximum(c) > Minimum(c) && Maximum(c) > 0.0
    ensures var chroma := Chroma(c, value);
            && chroma + (value - chroma) == Share(Maximum(c), Maximum(c), value)
            && 0.0 + (value - chroma) == Share(Minimum(c), Maximum(c), value)
            && chroma * Lead(middle, Minimum(c), Maximum(c) - Minimum(c)) + (value - chroma)
               == Share(middle, Maximum(c), value)
  {
    hide Maximum, Minimum;
    var top, bottom := Maximum(c), Minimum(c);
    var s, t := (top - bottom) / top, (middle - bottom) / (top - bottom);
    assert s * top == top - bottom && t * (top - bottom) == middle - bottom;
    assert s * t * top == t * (top - bottom);
    BottomShare(value, top, bottom, s);
    MiddleShare(value, top, bottom, middle, s, t);
  }

  lemma BottomShare(value: real, top: real, bottom: real, s: real)
    requires top > 0.0 && s * top == top - bottom
    ensures value - value * s == bottom * value / top
  {
    assert (value - value * s) * top == value * top - value * (s * top);
    assert (value - value * s) * top == value * bottom;
  }

  lemma MiddleShare(value: real, top: real, bottom: real, middle: real, s: real, t: real)
    requires top > 0.0 && s * top == top - bottom && s * t * top == middle - bottom
    ensures value * s * t + (value - value * s) == middle * value / top
  {
    var result := value * s * t + (value - value * s);
    assert result * top == value * (s * t * top) + value * top - value * (s * top);
    assert result * top == value * (middle - bottom) + value * top - value * (top - bottom);
    assert result * top == value * middle;
  }

  lemma RedOnTop(c: Rgb, value: real)
    requires Maximum(c) == c.red > Minimum(c) && Minimum(c) >= 0.0
    ensures WithValue(c, value) == Scaled(c, value)
  {
    hide Fraction, Hue, Lead, Chroma, Share;
    var delta := c.red - Minimum(c);
    var lead := Lead(c.green, c.blue, delta);
    RedHue(c);
    LeadBounds(c.green, c.blue, delta);
    if c.green >= c.blue {
      FractionIs(Hue(c), lead);
      ChannelShares(c, value, c.green);
      assert Minimum(c) == c.blue;
    } else {
      FractionIs(Hue(c), lead + 6.0);
      ChannelShares(c, value, c.blue);
      assert Minimum(c) == c.green;
    }
  }

  lemma GreenOnTop(c: Rgb, value: real)
    requires Maximum(c) == c.green > c.red && Minimum(c) >= 0.0
    ensures WithValue(c, value) == Scaled(c, value)
  {
    hide Fraction, Hue, Lead, Chroma, Share;
    var delta := c.green - Minimum(c);
    var lead := Lead(c.blue, c.red, delta);
    GreenHue(c);
    LeadBounds(c.blue, c.red, delta);
    FractionIs(Hue(c), lead + 2.0);
    if c.blue >= c.red {
      ChannelShares(c, value, c.blue);
      assert Minimum(c) == c.red;
    } else {
      ChannelShares(c, value, c.red);
      assert Minimum(c) == c.blue;
    }
  }

  lemma BlueOnTop(c: Rgb, value: real)
    requires Maximum(c) == c.blue && c.blue > c.red && c.blue > c.green && Minimum(c) >= 0.0
    ensures WithValue(c, value) == Scaled(c, value)
  {
    hide Fraction, Hue, Lead, Chroma, Share;
    var delta := c.blue - Minimum(c);
    var lead := Lead(c.red, c.green, delta);
    BlueHue(c);
    LeadBounds(c.red, c.green, delta);
    FractionIs(Hue(c), lead + 4.0);
    if c.red >= c.green {
      ChannelShares(c, value, c.red);
      assert Minimum(c) == c.green;
    } else {
      ChannelShares(c, value, c.green);
      assert Minimum(c) == c.red;
    }
  }

  /** The way through the hue is the plain scaling, through all six sectors and at their corners. */
  lemma HueIsNotNeeded(c: Rgb, value: real)
    requires IsColor(c) && Maximum(c) > 0.0
    ensures WithValue(c, value) == Scaled(c, value)
  {
    hide WithValue, Scaled;
    if Maximum(c) == Minimum(c) {
      GreyIsScaled(c, value);
    } else if Maximum(c) == c.red {
      RedOnTop(c, value);
    } else if Maximum(c) == c.green {
      GreenOnTop(c, value);
    } else {
      BlueOnTop(c, value);
    }
  }

  lemma GreyIsScaled(c: Rgb, value: real)
    requires Maximum(c) == Minimum(c) && Maximum(c) > 0.0
    ensures WithValue(c, value) == Scaled(c, value)
  {
    assert c.red == c.green == c.blue;
    assert c.red * value / c.red == value;
  }

  /** Black has no proportions: all its channels become the value. */
  lemma BlackBecomesGrey(value: real)
    ensures WithValue(Rgb(0.0, 0.0, 0.0), value) == Rgb(value, value, value)
  {
    hide Fraction, Hue;
    var c := Rgb(0.0, 0.0, 0.0);
    assert Chroma(c, value) == 0.0;
    assert Chroma(c, value) * Fraction(Hue(c)) == 0.0;
  }

  /** `nextValue` for the maximum */
  function NextValue(maximum: real): real { Max(0.0, Min(255.0, maximum + (if maximum > 128.0 then -32.0 else 32.0))) }

  lemma ShareInRange(channel: real, maximum: real, value: real)
    requires 0.0 <= channel <= maximum && maximum > 0.0 && value >= 0.0
    ensures 0.0 <= Share(channel, maximum, value) <= value
    ensures channel == maximum ==> Share(channel, maximum, value) == value
  {
    var share := channel * value / maximum;
    assert share * maximum == channel * value;
    assert channel * value <= maximum * value;
  }

  /** Every channel of the ripple is a byte without being clamped, and the top one moves by exactly 32. */
  lemma RippleInRange(c: Rgb)
    requires IsColor(c)
    ensures IsColor(WithValue(c, NextValue(Maximum(c))))
    ensures NextValue(Maximum(c)) == Maximum(c) + (if Maximum(c) > 128.0 then -32.0 else 32.0)
    ensures Maximum(WithValue(c, NextValue(Maximum(c)))) == NextValue(Maximum(c))
  {
    hide WithValue, Share;
    var value := NextValue(Maximum(c));
    if Maximum(c) > 0.0 {
      HueIsNotNeeded(c, value);
      ShareInRange(c.red, Maximum(c), value);
      ShareInRange(c.green, Maximum(c), value);
      ShareInRange(c.blue, Maximum(c), value);
    } else {
      assert c == Rgb(0.0, 0.0, 0.0);
      BlackBecomesGrey(value);
    }
  }

  // ----- Bytes in text -----

  predicate IsHexDigit(c: char) { '0' <= c <= '9' || 'a' <= c <= 'f' || 'A' <= c <= 'F' }

  lemma HexDigits(c: char)
    ensures IsHexDigit(c) <==> c in "0123456789abcdefABCDEF"
  {}

  function HexDigit(n: nat): char
    requires n < 16
  {
    if n < 10 then '0' + n as char else 'a' + (n - 10) as char
  }

  function HexValue(c: char): (n: nat)
    requires IsHexDigit(c)
    ensures n < 16
  {
    if c <= '9' then (c - '0') as nat else if c <= 'F' then (c - 'A') as nat + 10 else (c - 'a') as nat + 10
  }

  /** `toString(16)` of a byte */
  function Hex(n: nat): string
    requires n < 256
  {
    if n < 16 then [HexDigit(n)] else [HexDigit(n / 16), HexDigit(n % 16)]
  }

  /** `parseInt` of two digits */
  function ByteOf(digits: string): (n: nat)
    requires |digits| == 2 && IsHexDigit(digits[0]) && IsHexDigit(digits[1])
    ensures n < 256
  {
    16 * HexValue(digits[0]) + HexValue(digits[1])
  }

  function TwoDigits(n: nat): string
    requires n < 256
  {
    [HexDigit(n / 16), HexDigit(n % 16)]
  }

  /** A printed byte is two digits that parse to it. */
  lemma TwoDigitsParse(n: nat)
    requires n < 256
    ensures IsHexDigit(TwoDigits(n)[0]) && IsHexDigit(TwoDigits(n)[1]) && ByteOf(TwoDigits(n)) == n
  {
    DigitParses(n / 16);
    DigitParses(n % 16);
  }

  lemma DigitParses(n: nat)
    requires n < 16
    ensures IsHexDigit(HexDigit(n)) && HexValue(HexDigit(n)) == n
  {}

  /** `Math.round` */
  function Round(value: real): int { (value + 0.5).Floor }

  /** To the nearest integer, and up from the middle of two */
  lemma RoundIs(value: real)
    ensures Round(value) as real - 0.5 <= value < Round(value) as real + 0.5
  {}

  /** `hexByte`; a value that is in range is not clamped. */
  method HexByte(value: real) returns (text: string)
    ensures 0.0 <= value <= 255.0 ==> 0 <= Round(value) <= 255 && text == TwoDigits(Round(value))
    ensures value <= 0.0 ==> text == "00"
    ensures value >= 255.0 ==> text == "ff"
  {
    var byte := Round(value);
    byte := if byte < 255 then byte else 255;
    byte := if byte > 0 then byte else 0;
    text := Hex(byte);
    text := (if |text| < 2 then "0" else "") + text;
    assert HexDigit(0) == '0';
  }

  /** `/^#[0-9a-f]{6}$/i` */
  predicate IsHexColor(value: string) {
    |value| == 7 && value[0] == '#' && forall i | 1 <= i < 7 :: IsHexDigit(value[i])
  }

  /** A colour is a hash sign and six hexadecimal digits. */
  lemma HexColors(value: string)
    ensures IsHexColor(value)
       <==> exists digits: string ::
              value == "#" + digits && |digits| == 6 && forall c | c in digits :: c in "0123456789abcdefABCDEF"
  {
    forall c: char
      ensures IsHexDigit(c) <==> c in "0123456789abcdefABCDEF"
    {
      HexDigits(c);
    }
    hide IsHexDigit;
    if IsHexColor(value) {
      assert value == "#" + value[1..];
      forall c | c in value[1..]
        ensures c in "0123456789abcdefABCDEF"
      {
        var i :| 0 <= i < 6 && value[1..][i] == c;
        assert c == value[i + 1];
      }
    }
  }

  function ColorOf(value: string): (c: Rgb)
    requires IsHexColor(value)
    ensures IsColor(c)
  {
    Rgb(ByteOf(value[1..3]) as real, ByteOf(value[3..5]) as real, ByteOf(value[5..7]) as real)
  }

  /** The text of a colour whose channels are rounded to bytes */
  function TextOf(c: Rgb): string
    requires IsColor(c)
  {
    "#" + TwoDigits(Round(c.red)) + TwoDigits(Round(c.green)) + TwoDigits(Round(c.blue))
  }

  /** What the function gives: the scaled colour in text, black becoming a dark grey, and nothing for another text */
  method ButtonRippleForBackground(value: string) returns (ripple: Option<string>)
    ensures !IsHexColor(value) ==> ripple == None
    ensures IsHexColor(value) ==>
              var c := ColorOf(value);
              var next := NextValue(Maximum(c));
              && (Maximum(c) > 0.0 ==> IsColor(Scaled(c, next)) && ripple == Some(TextOf(Scaled(c, next))))
              && (Maximum(c) == 0.0 ==> ripple == Some(TextOf(Rgb(32.0, 32.0, 32.0))))
  {
    hide Remainder, Share, TwoDigits, WithValue, Round, Scaled;
    if !IsHexColor(value) {
      return None;
    }
    ghost var c := ColorOf(value);
    var red, green, blue := ByteOf(value[1..3]) as real, ByteOf(value[3..5]) as real, ByteOf(value[5..7]) as real;
    var maximum := Max(red, Max(green, blue));
    var nextValue := Max(0.0, Min(255.0, maximum + (if maximum > 128.0 then -32.0 else 32.0)));
    var next := WithNextValue(red, green, blue, nextValue);
    RippleInRange(c);
    if maximum > 0.0 {
      HueIsNotNeeded(c, nextValue);
    } else {
      assert c == Rgb(0.0, 0.0, 0.0);
      BlackBecomesGrey(nextValue);
    }
    var r := HexByte(next.red);
    var g := HexByte(next.green);
    var b := HexByte(next.blue);
    ripple := Some("#" + r + g + b);
  }

  method HueOf(red: real, green: real, blue: real) returns (hue: real)
    ensures hue == Hue(Rgb(red, green, blue))
  {
    hide Remainder;
    var maximum := Max(red, Max(green, blue));
    var minimum := Min(red, Min(green, blue));
    var delta := maximum - minimum;
    hue := 0.0;
    if delta != 0.0 && maximum == red {
      hue := 60.0 * Remainder((green - blue) / delta, 6.0);
    } else if delta != 0.0 && maximum == green {
      hue := 60.0 * ((blue - red) / delta + 2.0);
    } else if delta != 0.0 {
      hue := 60.0 * ((red - green) / delta + 4.0);
    }
    if hue < 0.0 {
      hue := hue + 360.0;
    }
  }

  /** From the hue to the channels of the ripple */
  method WithNextValue(red: real, green: real, blue: real, nextValue: real) returns (next: Rgb)
    ensures next == WithValue(Rgb(red, green, blue), nextValue)
  {
    hide Chroma, Fraction, Hue, Channels, WithValue, Part;
    var hue := HueOf(red, green, blue);
    var chroma := ChromaOf(red, green, blue, nextValue);
    var fraction := FractionOf(hue);
    var x := Part(chroma, fraction);
    var m := nextValue - chroma;
    WithValueParts(Rgb(red, green, blue), nextValue, hue, chroma, fraction);
    next := NextChannels(hue, chroma, x);
    next := Rgb(next.red + m, next.green + m, next.blue + m);
  }

  method ChromaOf(red: real, green: real, blue: real, nextValue: real) returns (chroma: real)
    ensures chroma == Chroma(Rgb(red, green, blue), nextValue)
  {
    var maximum := Max(red, Max(green, blue));
    var delta := maximum - Min(red, Min(green, blue));
    var saturation := if maximum == 0.0 then 0.0 else delta / maximum;
    chroma := nextValue * saturation;
  }

  lemma WithValueParts(c: Rgb, value: real, hue: real, chroma: real, fraction: real)
    requires hue == Hue(c) && chroma == Chroma(c, value) && fraction == Fraction(hue)
    ensures var channels := Channels(hue, chroma, Part(chroma, fraction));
            WithValue(c, value)
            == Rgb(channels.red + (value - chroma), channels.green + (value - chroma), channels.blue + (value - chroma))
  {
    hide Chroma, Fraction, Hue, Channels, Part;
  }

  method FractionOf(hue: real) returns (fraction: real)
    ensures fraction == Fraction(hue)
  {
    fraction := 1.0 - Abs(Remainder(hue / 60.0, 2.0) - 1.0);
  }

  /** The chain of sectors at the end */
  method NextChannels(hue: real, chroma: real, x: real) returns (next: Rgb)
    ensures next == Channels(hue, chroma, x)
  {
    next := Rgb(0.0, 0.0, 0.0);
    if hue < 60.0 {
      next := next.(red := chroma, green := x);
    } else if hue < 120.0 {
      next := next.(red := x, green := chroma);
    } else if hue < 180.0 {
      next := next.(green := chroma, blue := x);
    } else if hue < 240.0 {
      next := next.(green := x, blue := chroma);
    } else if hue < 300.0 {
      next := next.(red := x, blue := chroma);
    } else {
      next := next.(red := chroma, blue := x);
    }
  }
}
