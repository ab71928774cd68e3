/**
  shadeHex: read a colour written as hex digits, shift each of its three
  8-bit channels by the same amount, clamp each to 0..255, and write the
  result back as '#' followed by six lower-case hex digits.

  The input is restricted to an optional leading '#' followed by at most six
  hex digits. The digits are read as one number, so '#fff' is 0x000fff and
  not the CSS shorthand for white.
 */
module Shade {

  predicate IsHexDigit(ch: char)
  {
    '0' <= ch <= '9' || 'a' <= ch <= 'f' || 'A' <= ch <= 'F'
  }

  predicate IsLowerHexDigit(ch: char)
  {
    '0' <= ch <= '9' || 'a' <= ch <= 'f'
  }

  predicate AllHexDigits(ds: string)
  {
    forall i :: 0 <= i < |ds| ==> IsHexDigit(ds[i])
  }

  predicate AllLowerHexDigits(ds: string)
  {
    forall i :: 0 <= i < |ds| ==> IsLowerHexDigit(ds[i])
  }

  /** The value of one hex digit, upper or lower case. */
  function DigitValue(ch: char): (v: nat)
    requires IsHexDigit(ch)
    ensures v < 16
  {
    if '0' <= ch <= '9' then (ch - '0') as nat
    else if 'a' <= ch <= 'f' then (ch - 'a') as nat + 10
    else (ch - 'A') as nat + 10
  }

  /** Number.prototype.toString(16) digit for 0 <= v < 16. */
  function LowerDigit(v: nat): (ch: char)
    requires v < 16
    ensures IsLowerHexDigit(ch) && DigitValue(ch) == v
  {
    if v < 10 then ('0' as int + v) as char else ('a' as int + v - 10) as char
  }

  lemma LowerDigitOfValue(ch: char)
    requires IsLowerHexDigit(ch)
    ensures LowerDigit(DigitValue(ch)) == ch
  {
  }

  function Pow16(n: nat): (p: nat)
    ensures p >= 1
  {
    if n == 0 then 1 else 16 * Pow16(n - 1)
  }

  /** parseInt(ds, 16) for a string of hex digits, most significant first. */
  function ParseHex(ds: string): (n: nat)
    requires AllHexDigits(ds)
    ensures n < Pow16(|ds|)
  {
    if |ds| == 0 then 0
    else ParseHex(ds[..|ds| - 1]) * 16 + DigitValue(ds[|ds| - 1])
  }

  /** The n lowest hex digits of v, most significant first, zero-padded. */
  function ToHex(v: nat, n: nat): (ds: string)
    ensures |ds| == n && AllLowerHexDigits(ds)
  {
    if n == 0 then [] else ToHex(v / 16, n - 1) + [LowerDigit(v % 16)]
  }

  /** Writing v in n digits and reading it back gives v, when v fits in n digits. */
  lemma {:induction false} ParseToHex(v: nat, n: nat)
    requires v < Pow16(n)
    ensures ParseHex(ToHex(v, n)) == v
  {
    if n > 0 {
      var ds := ToHex(v, n);
      assert ds[..n - 1] == ToHex(v / 16, n - 1);
      ParseToHex(v / 16, n - 1);
    }
  }

  /** Reading lower-case digits and writing them back in as many digits gives them unchanged. */
  lemma {:induction false} ToHexOfParse(ds: string)
    requires AllLowerHexDigits(ds)
    ensures ToHex(ParseHex(ds), |ds|) == ds
  {
    if |ds| > 0 {
      var n := |ds|;
      var init := ds[..n - 1];
      var v := ParseHex(ds);
      assert v / 16 == ParseHex(init) && v % 16 == DigitValue(ds[n - 1]);
      ToHexOfParse(init);
      LowerDigitOfValue(ds[n - 1]);
      assert ds == init + [ds[n - 1]];
    }
  }

  /** The inputs the model accepts: an optional leading '#' and at most six hex digits. */
  predicate WellFormedColour(hex: string)
  {
    |Digits(hex)| <= 6 && AllHexDigits(Digits(hex))
  }

  /** hex.replace('#', ''): the digits after the leading '#', if there is one. */
  function Digits(hex: string): string
  {
    if |hex| > 0 && hex[0] == '#' then hex[1..] else hex
  }

  /**
    The value of the digits. With no digits parseInt gives NaN, which the
    bit operations that follow read as 0.
   */
  function ColourValue(hex: string): (num: nat)
    requires WellFormedColour(hex)
    ensures num < 0x100_0000
  {
    var ds := Digits(hex);
    assert Pow16(|ds|) <= Pow16(6) by { Pow16Monotone(|ds|, 6); }
    ParseHex(ds)
  }

  lemma {:induction false} Pow16Monotone(m: nat, n: nat)
    requires m <= n
    ensures Pow16(m) <= Pow16(n)
  {
    if m < n {
      Pow16Monotone(m, n - 1);
    }
  }

  /** clamp(v, lo, hi) of line 75, on the integer channels. */
  function ClampInt(v: int, lo: int, hi: int): (r: int)
    requires lo <= hi
    ensures lo <= r <= hi
    ensures lo <= v <= hi ==> r == v
    ensures v < lo ==> r == lo
    ensures hi < v ==> r == hi
  {
    if v < lo then lo else if v > hi then hi else v
  }

  /** The three 8-bit channels of a 24-bit colour: num >> 16, (num >> 8) & 0xff, num & 0xff. */
  datatype Rgb = Rgb(r: int, g: int, b: int)

  function Channels(num: nat): Rgb
  {
    Rgb(num / 0x1_0000, (num / 0x100) % 0x100, num % 0x100)
  }

  /** (r << 16) + (g << 8) + b for channels in 0..255. */
  function Pack(c: Rgb): (num: nat)
    requires 0 <= c.r < 0x100 && 0 <= c.g < 0x100 && 0 <= c.b < 0x100
    ensures num < 0x100_0000
  {
    c.r * 0x1_0000 + c.g * 0x100 + c.b
  }

  /** Splitting a packed colour gives back its channels. */
  lemma ChannelsOfPack(c: Rgb)
    requires 0 <= c.r < 0x100 && 0 <= c.g < 0x100 && 0 <= c.b < 0x100
    ensures Channels(Pack(c)) == c
  {
    var num := Pack(c);
    var low := c.g * 0x100 + c.b;
    assert num == c.r * 0x1_0000 + low && 0 <= low < 0x1_0000;
    assert num / 0x1_0000 == c.r;
    assert num / 0x100 == c.r * 0x100 + c.g;
    assert (c.r * 0x100 + c.g) % 0x100 == c.g;
    assert num % 0x100 == c.b;
  }

  /** Packing the channels of a 24-bit colour gives the colour back. */
  lemma PackOfChannels(num: nat)
    requires num < 0x100_0000
    ensures var c := Channels(num);
            0 <= c.r < 0x100 && 0 <= c.g < 0x100 && 0 <= c.b < 0x100 && Pack(c) == num
  {
    var hi := num / 0x100;
    assert num == hi * 0x100 + num % 0x100;
    assert hi == (hi / 0x100) * 0x100 + hi % 0x100;
    assert hi / 0x100 == num / 0x1_0000;
  }

  /** Each channel shifted by percent and clamped to 0..255. */
  function Shift(c: Rgb, percent: int): (s: Rgb)
  {
    Rgb(ClampInt(c.r + percent, 0, 255), ClampInt(c.g + percent, 0, 255), ClampInt(c.b + percent, 0, 255))
  }

  /**
    shadeHex(hex, percent): '#' followed by the six lower-case hex digits of the
    shifted colour ('(1 << 24) + packed' written in hex with its leading 1 cut off).
   */
  function ShadeHex(hex: string, percent: int): (out: string)
    requires WellFormedColour(hex)
    ensures |out| == 7 && out[0] == '#' && AllLowerHexDigits(out[1..])
    ensures WellFormedColour(out)
  {
    "#" + ToHex(Pack(Shift(Channels(ColourValue(hex)), percent)), 6)
  }

  /**
    The colour written by shadeHex has, channel by channel, the input's
    channel shifted by percent and clamped to 0..255.
   */
  lemma ShadeHexChannels(hex: string, percent: int)
    requires WellFormedColour(hex)
    ensures Channels(ColourValue(ShadeHex(hex, percent))) == Shift(Channels(ColourValue(hex)), percent)
  {
    var s := Shift(Channels(ColourValue(hex)), percent);
    var out := ShadeHex(hex, percent);
    assert Digits(out) == ToHex(Pack(s), 6);
    ParseToHex(Pack(s), 6);
    ChannelsOfPack(s);
  }

  /** A shift by 0 leaves a colour already written as '#rrggbb' in lower case unchanged. */
  lemma ShadeHexZeroIdentity(hex: string)
    requires |hex| == 7 && hex[0] == '#' && AllLowerHexDigits(hex[1..])
    ensures WellFormedColour(hex) && ShadeHex(hex, 0) == hex
  {
    var ds := hex[1..];
    assert Digits(hex) == ds;
    assert AllHexDigits(ds);
    var num := ColourValue(hex);
    PackOfChannels(num);
    assert Shift(Channels(num), 0) == Channels(num);
    ToHexOfParse(ds);
    assert hex == "#" + ds;
  }

  /** Two clamped shifts of the same sign make one clamped shift by their sum. */
  lemma ClampShiftCompose(v: int, p: int, q: int)
    requires 0 <= v <= 255
    requires (p >= 0 && q >= 0) || (p <= 0 && q <= 0)
    ensures ClampInt(ClampInt(v + p, 0, 255) + q, 0, 255) == ClampInt(v + p + q, 0, 255)
  {
  }

  /** Shading twice by amounts of the same sign is the same as shading once by their sum. */
  lemma ShadeHexCompose(hex: string, p: int, q: int)
    requires WellFormedColour(hex)
    requires (p >= 0 && q >= 0) || (p <= 0 && q <= 0)
    ensures ShadeHex(ShadeHex(hex, p), q) == ShadeHex(hex, p + q)
  {
    var c := Channels(ColourValue(hex));
    PackOfChannels(ColourValue(hex));
    ShadeHexChannels(hex, p);
    ClampShiftCompose(c.r, p, q);
    ClampShiftCompose(c.g, p, q);
    ClampShiftCompose(c.b, p, q);
    assert Shift(Shift(c, p), q) == Shift(c, p + q);
  }

  /** The stripe colour of the classic skin: '#fff' is 0x000fff, so darkening by 10 gives '#0005f5'. */
  lemma ClassicAccentStripe()
    ensures ShadeHex("#fff", -10) == "#0005f5"
  {
    ClassicAccentValue();
    assert Channels(0xfff) == Rgb(0, 15, 255);
    assert Shift(Rgb(0, 15, 255), -10) == Rgb(0, 5, 245);
    assert Pack(Rgb(0, 5, 245)) == 0x5f5;
    ClassicAccentDigits();
  }

  lemma ClassicAccentValue()
    ensures WellFormedColour("#fff") && ColourValue("#fff") == 0xfff
  {
    assert Digits("#fff") == "fff";
    assert "fff"[..2] == "ff" && "ff"[..1] == "f" && "f"[..0] == "";
    assert ParseHex("f") == 15;
    assert ParseHex("ff") == 255;
  }

  lemma ClassicAccentDigits()
    ensures ToHex(0x5f5, 6) == "0005f5"
  {
    assert ToHex(0, 3) == "000";
    assert ToHex(5, 4) == "000" + [LowerDigit(5)] == "0005";
    assert ToHex(0x5f, 5) == "0005" + [LowerDigit(15)] == "0005f";
    assert 0x5f5 / 16 == 0x5f && 0x5f5 % 16 == 5;
    assert ToHex(0x5f5, 6) == "0005f" + [LowerDigit(5)] == "0005f5";
  }
}
