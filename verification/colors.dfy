/**
 * Colours as the profile stores them: one number holding four bytes, red,
 * green, blue and alpha from the most significant byte down (0xff0000ff is
 * opaque red). The page and the client script write them as `#rrggbbaa` or
 * `#rrggbb`, the colour inputs of the settings form read `#rrggbb` back, and the
 * client decides from the colour bytes whether text on it should be light.
 */
module Colors {
  import opened Wrappers
  import opened Numerals

  const Two32: nat := 0x1_0000_0000
  const MaxColor: nat := 0xffff_ffff

  /**
   * `(c >> 8 * k) & 0xff` for an integral number: byte `k` (0 is the least
   * significant) of the 32-bit pattern the shift operators work on.
   */
  function Byte(c: int, k: nat): (b: nat)
    requires k < 4
    ensures b < 256
  {
    var u := c % Two32;
    if k == 0 then u % 256
    else if k == 1 then u / 256 % 256
    else if k == 2 then u / 256 / 256 % 256
    else u / 256 / 256 / 256 % 256
  }

  lemma {:induction false} ModSmall(v: nat, m: nat)
    requires v < m
    ensures v % m == v
  {
  }

  /** A 32-bit value is its four bytes, most significant first. */
  lemma {:induction false} BytesCompose(c: int)
    requires 0 <= c < Two32
    ensures c == ((Byte(c, 3) * 256 + Byte(c, 2)) * 256 + Byte(c, 1)) * 256 + Byte(c, 0)
  {
    var q1 := c / 256;
    var q2 := q1 / 256;
    var q3 := q2 / 256;
    ModSmall(c, Two32);
    assert q3 < 256;
    ModSmall(q3, 256);
    assert Byte(c, 0) == c % 256 && Byte(c, 1) == q1 % 256;
    assert Byte(c, 2) == q2 % 256 && Byte(c, 3) == q3;
    assert c == q1 * 256 + c % 256;
    assert q1 == q2 * 256 + q1 % 256;
    assert q2 == q3 * 256 + q2 % 256;
  }

  /** The bytes of a value assembled from four bytes. */
  lemma {:induction false} BytesOf(b3: nat, b2: nat, b1: nat, b0: nat)
    requires b3 < 256 && b2 < 256 && b1 < 256 && b0 < 256
    ensures var c := ((b3 * 256 + b2) * 256 + b1) * 256 + b0;
      c < Two32 && Byte(c, 3) == b3 && Byte(c, 2) == b2 && Byte(c, 1) == b1 && Byte(c, 0) == b0
  {
    var q2 := b3 * 256 + b2;
    var q1 := q2 * 256 + b1;
    var c := q1 * 256 + b0;
    assert c < Two32;
    ModSmall(c, Two32);
    ShiftByte(q1, b0);
    ShiftByte(q2, b1);
    ShiftByte(b3, b2);
    ModSmall(b3, 256);
  }

  /** Taking a byte off the bottom of a number and putting it back. */
  lemma {:induction false} ShiftByte(q: nat, b: nat)
    requires b < 256
    ensures (q * 256 + b) / 256 == q && (q * 256 + b) % 256 == b
  {
  }

  /** `c` in the range a colour may take: a number from 1 to 0xffffffff. */
  predicate InRange(c: int) {
    1 <= c <= MaxColor
  }

  predicate IsLowerHex(ch: char) {
    '0' <= ch <= '9' || 'a' <= ch <= 'f'
  }

  predicate AllLowerHex(s: string) {
    forall i :: 0 <= i < |s| ==> IsLowerHex(s[i])
  }

  lemma {:induction false} DigitCharLower(d: nat)
    requires d < 16
    ensures IsLowerHex(DigitChar(d))
  {
  }

  /** `Hex2` writes two lower-case hex digits. */
  lemma {:induction false} Hex2Lower(b: nat)
    requires b < 256
    ensures |Hex2(b)| == 2 && AllLowerHex(Hex2(b))
  {
    DigitCharLower(b / 16);
    DigitCharLower(b % 16);
  }

  lemma {:induction false} AllLowerHexAppend(a: string, b: string)
    requires AllLowerHex(a) && AllLowerHex(b)
    ensures AllLowerHex(a + b)
  {
    forall i | 0 <= i < |a + b| ensures IsLowerHex((a + b)[i]) {
      if i >= |a| {
        assert (a + b)[i] == b[i - |a|];
      }
    }
  }

  /** The hex digits of some bytes, two per byte, most significant byte first. */
  function HexBytes(bs: seq<nat>): (r: string)
    requires forall i :: 0 <= i < |bs| ==> bs[i] < 256
    ensures |r| == 2 * |bs| && AllLowerHex(r)
  {
    if bs == [] then ""
    else
      var last := bs[|bs| - 1];
      Hex2Lower(last);
      AllLowerHexAppend(HexBytes(bs[..|bs| - 1]), Hex2(last));
      HexBytes(bs[..|bs| - 1]) + Hex2(last)
  }

  /**
   * `getColor` of the client script: `#` and the eight hex digits of the four
   * bytes, or null (`None`) outside the colour range.
   */
  function RgbaHex(c: int): (r: Option<string>)
    ensures r.None? <==> !InRange(c)
    ensures r.Some? ==> |r.value| == 9 && r.value[0] == '#' && AllLowerHex(r.value[1..])
  {
    if !InRange(c) then None
    else
      var h := HexBytes([Byte(c, 3), Byte(c, 2), Byte(c, 1), Byte(c, 0)]);
      assert ("#" + h)[1..] == h;
      Some("#" + h)
  }

  /**
   * `getColor` of the profile page: `#` and the six hex digits of the colour
   * bytes, alpha dropped, or null (`None`) outside the colour range.
   */
  function RgbHex(c: int): (r: Option<string>)
    ensures r.None? <==> !InRange(c)
    ensures r.Some? ==> |r.value| == 7 && r.value[0] == '#' && AllLowerHex(r.value[1..])
  {
    if !InRange(c) then None
    else
      var h := HexBytes([Byte(c, 3), Byte(c, 2), Byte(c, 1)]);
      assert ("#" + h)[1..] == h;
      Some("#" + h)
  }

  /** The colour number of the colour bytes `rgb` with an opaque alpha byte. */
  function Opaque(rgb: nat): (c: nat)
    ensures c / 256 == rgb && c % 256 == 255
  {
    rgb * 256 + 255
  }

  /**
   * `toColorNum`: the hex number after the first character, shifted up one
   * byte with an opaque alpha, as an unsigned 32-bit value. Text without hex
   * digits reads as NaN, which the shift treats as 0.
   */
  function ColorNumber(s: string): (n: nat)
    ensures 255 <= n <= MaxColor && n % 256 == 255
  {
    var rgb := match ParseIntHex(if s == [] then [] else s[1..])
      case None => 0
      case Some(v) => v;
    // ((rgb << 8) | 0xff) >>> 0: the shift keeps the low 24 bits of rgb
    Opaque(rgb % 0x100_0000)
  }

  // ---------------------------------------------------------------------------
  // Reading the digits back

  /** The number some bytes denote, most significant first. */
  function BytesValue(bs: seq<nat>): nat {
    if bs == [] then 0 else BytesValue(bs[..|bs| - 1]) * 256 + bs[|bs| - 1]
  }

  lemma {:induction false} BytesValue3(b3: nat, b2: nat, b1: nat)
    ensures BytesValue([b3, b2, b1]) == (b3 * 256 + b2) * 256 + b1
  {
    var one: seq<nat> := [b3];
    assert one[..0] == [];
    assert BytesValue(one) == b3;
    assert [b3, b2][..1] == one;
    assert BytesValue([b3, b2]) == b3 * 256 + b2;
    assert [b3, b2, b1][..2] == [b3, b2];
  }

  lemma {:induction false} BytesValue4(b3: nat, b2: nat, b1: nat, b0: nat)
    ensures BytesValue([b3, b2, b1, b0]) == ((b3 * 256 + b2) * 256 + b1) * 256 + b0
  {
    assert [b3, b2, b1, b0][..3] == [b3, b2, b1];
    BytesValue3(b3, b2, b1);
  }

  lemma {:induction false} HexBytesSnoc(bs: seq<nat>, b: nat)
    requires forall i :: 0 <= i < |bs| ==> bs[i] < 256
    requires b < 256
    ensures HexBytes(bs + [b]) == HexBytes(bs) + Hex2(b)
  {
    assert (bs + [b])[..|bs|] == bs;
  }

  lemma {:induction false} HexBytes3(b3: nat, b2: nat, b1: nat)
    requires b3 < 256 && b2 < 256 && b1 < 256
    ensures HexBytes([b3, b2, b1]) == Hex2(b3) + Hex2(b2) + Hex2(b1)
  {
    HexBytesSnoc([], b3);
    assert [] + [b3] == [b3];
    HexBytesSnoc([b3], b2);
    assert [b3] + [b2] == [b3, b2];
    HexBytesSnoc([b3, b2], b1);
    assert [b3, b2] + [b1] == [b3, b2, b1];
  }

  lemma {:induction false} HexBytes4(b3: nat, b2: nat, b1: nat, b0: nat)
    requires b3 < 256 && b2 < 256 && b1 < 256 && b0 < 256
    ensures HexBytes([b3, b2, b1, b0]) == HexBytes([b3, b2, b1]) + Hex2(b0)
    ensures HexBytes([b3, b2, b1, b0]) == Hex2(b3) + Hex2(b2) + Hex2(b1) + Hex2(b0)
  {
    HexBytesSnoc([b3, b2, b1], b0);
    assert [b3, b2, b1] + [b0] == [b3, b2, b1, b0];
    HexBytes3(b3, b2, b1);
  }

  lemma {:induction false} LowerHexDigits(s: string)
    requires AllLowerHex(s)
    ensures AllDigits(s, 16)
  {
    forall i | 0 <= i < |s| ensures IsDigit(s[i], 16) {
      assert IsLowerHex(s[i]);
    }
  }

  /** Two more hex digits shift the value up one byte. */
  lemma {:induction false} ValueOfPair(a: string, x: char, y: char)
    requires AllDigits(a, 16) && IsDigit(x, 16) && IsDigit(y, 16)
    ensures AllDigits(a + [x, y], 16)
    ensures ValueOf(a + [x, y], 16) == ValueOf(a, 16) * 256 + DigitValue(x) * 16 + DigitValue(y)
  {
    var ax := a + [x];
    var axy := a + [x, y];
    assert axy[..|a| + 1] == ax;
    assert ax[..|a|] == a;
    assert ValueOf(ax, 16) == ValueOf(a, 16) * 16 + DigitValue(x);
    assert ValueOf(axy, 16) == ValueOf(ax, 16) * 16 + DigitValue(y);
  }

  lemma {:induction false} ValueOfHex2Append(a: string, b: nat)
    requires AllDigits(a, 16) && b < 256
    ensures AllDigits(a + Hex2(b), 16) && ValueOf(a + Hex2(b), 16) == ValueOf(a, 16) * 256 + b
  {
    var h := Hex2(b);
    var hi, lo := DigitChar(b / 16), DigitChar(b % 16);
    assert h == [hi, lo];
    DigitCharValue(b / 16);
    DigitCharValue(b % 16);
    ValueOfPair(a, hi, lo);
  }

  /** The hex digits of some bytes read back as the number the bytes denote. */
  lemma {:induction false} HexBytesValue(bs: seq<nat>)
    requires forall i :: 0 <= i < |bs| ==> bs[i] < 256
    ensures AllDigits(HexBytes(bs), 16) && ValueOf(HexBytes(bs), 16) == BytesValue(bs)
  {
    LowerHexDigits(HexBytes(bs));
    if bs != [] {
      var init := bs[..|bs| - 1];
      HexBytesValue(init);
      ValueOfHex2Append(HexBytes(init), bs[|bs| - 1]);
    }
  }

  /** The page's colour is the client's colour without the alpha digits. */
  lemma {:induction false} RgbHexIsPrefix(c: int)
    ensures RgbHex(c).Some? <==> RgbaHex(c).Some?
    ensures RgbHex(c).Some? ==> RgbHex(c).value == RgbaHex(c).value[..7]
  {
    if InRange(c) {
      HexBytes4(Byte(c, 3), Byte(c, 2), Byte(c, 1), Byte(c, 0));
      var s := "#" + HexBytes([Byte(c, 3), Byte(c, 2), Byte(c, 1)]);
      assert RgbaHex(c).value == s + Hex2(Byte(c, 0));
      assert (s + Hex2(Byte(c, 0)))[..7] == s;
    }
  }

  /** The eight digits of `RgbaHex` read back as the colour. */
  lemma {:induction false} RgbaHexValue(c: int)
    requires InRange(c)
    ensures AllDigits(RgbaHex(c).value[1..], 16) && ValueOf(RgbaHex(c).value[1..], 16) == c
  {
    var bs := [Byte(c, 3), Byte(c, 2), Byte(c, 1), Byte(c, 0)];
    assert RgbaHex(c).value[1..] == HexBytes(bs);
    HexBytesValue(bs);
    BytesValue4(Byte(c, 3), Byte(c, 2), Byte(c, 1), Byte(c, 0));
    BytesCompose(c);
  }

  /** The six digits of `RgbHex` read back as the colour without its alpha byte. */
  lemma {:induction false} RgbHexValue(c: int)
    requires InRange(c)
    ensures AllDigits(RgbHex(c).value[1..], 16) && ValueOf(RgbHex(c).value[1..], 16) == c / 256
  {
    var bs := [Byte(c, 3), Byte(c, 2), Byte(c, 1)];
    assert RgbHex(c).value[1..] == HexBytes(bs);
    HexBytesValue(bs);
    BytesValue3(Byte(c, 3), Byte(c, 2), Byte(c, 1));
    BytesCompose(c);
  }

  lemma {:induction false} LowerHexDigit(ch: char)
    requires IsLowerHex(ch)
    ensures IsDigit(ch, 16) && DigitChar(DigitValue(ch) as nat) == ch
  {
  }

  /** Two lower-case hex digits are what `Hex2` writes for their value. */
  lemma {:induction false} Hex2OfDigits(x: char, y: char)
    requires IsLowerHex(x) && IsLowerHex(y)
    ensures ValueOf([x, y], 16) < 256 && Hex2(ValueOf([x, y], 16)) == [x, y]
  {
    LowerHexDigit(x);
    LowerHexDigit(y);
    ValueOfPair([], x, y);
    assert [] + [x, y] == [x, y];
    var v := ValueOf([x, y], 16);
    assert v == DigitValue(x) * 16 + DigitValue(y);
    assert v / 16 == DigitValue(x) && v % 16 == DigitValue(y);
  }

  /** Six characters are three pairs. */
  lemma {:induction false} SixChars(h: string)
    requires |h| == 6
    ensures h == [h[0], h[1]] + [h[2], h[3]] + [h[4], h[5]]
  {
  }

  /** Six lower-case hex digits are the digits of three bytes. */
  lemma {:induction false} InputBytes(h: string) returns (b3: nat, b2: nat, b1: nat)
    requires |h| == 6 && AllLowerHex(h)
    ensures b3 < 256 && b2 < 256 && b1 < 256
    ensures AllDigits([h[0], h[1]], 16) && b3 == ValueOf([h[0], h[1]], 16)
    ensures AllDigits([h[2], h[3]], 16) && b2 == ValueOf([h[2], h[3]], 16)
    ensures AllDigits([h[4], h[5]], 16) && b1 == ValueOf([h[4], h[5]], 16)
    ensures h == HexBytes([b3, b2, b1])
    ensures AllDigits(h, 16) && ValueOf(h, 16) == (b3 * 256 + b2) * 256 + b1
  {
    assert IsLowerHex(h[0]) && IsLowerHex(h[1]) && IsLowerHex(h[2]);
    assert IsLowerHex(h[3]) && IsLowerHex(h[4]) && IsLowerHex(h[5]);
    Hex2OfDigits(h[0], h[1]);
    Hex2OfDigits(h[2], h[3]);
    Hex2OfDigits(h[4], h[5]);
    b3, b2, b1 := ValueOf([h[0], h[1]], 16), ValueOf([h[2], h[3]], 16), ValueOf([h[4], h[5]], 16);
    assert h == HexBytes([b3, b2, b1]) by {
      HexBytes3(b3, b2, b1);
      SixChars(h);
    }
    HexBytesValue([b3, b2, b1]);
    BytesValue3(b3, b2, b1);
  }

  /** `toColorNum` of a colour input's text: its value shifted up one byte, with an opaque alpha. */
  lemma {:induction false} ColorNumberOfInput(h: string)
    requires |h| == 6 && AllLowerHex(h)
    ensures AllDigits(h, 16) && ValueOf(h, 16) < 0x100_0000
    ensures ColorNumber("#" + h) == Opaque(ValueOf(h, 16))
  {
    LowerHexDigits(h);
    var v := ValueOf(h, 16);
    assert v < 0x100_0000 by {
      var b3, b2, b1 := InputBytes(h);
    }
    assert ParseIntHex(("#" + h)[1..]) == Some(v) by {
      assert ("#" + h)[1..] == h;
      ParseIntHexDigits(h);
    }
    ModSmall(v, 0x100_0000);
  }

  /** How both colour writers print an opaque colour assembled from three bytes. */
  lemma {:induction false} OpaqueColorText(v: nat, b3: nat, b2: nat, b1: nat)
    requires b3 < 256 && b2 < 256 && b1 < 256
    requires v == (b3 * 256 + b2) * 256 + b1
    ensures InRange(Opaque(v))
    ensures RgbaHex(Opaque(v)) == Some("#" + HexBytes([b3, b2, b1]) + "ff")
    ensures RgbHex(Opaque(v)) == Some("#" + HexBytes([b3, b2, b1]))
  {
    var n := Opaque(v);
    assert n == ((b3 * 256 + b2) * 256 + b1) * 256 + 255;
    BytesOf(b3, b2, b1, 255);
    assert [Byte(n, 3), Byte(n, 2), Byte(n, 1), Byte(n, 0)] == [b3, b2, b1, 255];
    assert [Byte(n, 3), Byte(n, 2), Byte(n, 1)] == [b3, b2, b1];
    var x := HexBytes([b3, b2, b1]);
    assert RgbaHex(n).value == "#" + HexBytes([b3, b2, b1, 255]);
    assert HexBytes([b3, b2, b1, 255]) == x + "ff" by {
      HexBytes4(b3, b2, b1, 255);
      assert Hex2(255) == "ff";
    }
    assert "#" + (x + "ff") == "#" + x + "ff";
    assert RgbHex(n).value == "#" + x;
  }

  /** The colour a colour input's text denotes, with an opaque alpha, prints back as that text. */
  lemma {:induction false} OpaqueColorOfInput(h: string)
    requires |h| == 6 && AllLowerHex(h)
    ensures AllDigits(h, 16)
    ensures InRange(Opaque(ValueOf(h, 16)))
    ensures RgbaHex(Opaque(ValueOf(h, 16))) == Some("#" + h + "ff")
    ensures RgbHex(Opaque(ValueOf(h, 16))) == Some("#" + h)
  {
    var b3, b2, b1 := InputBytes(h);
    OpaqueColorText(ValueOf(h, 16), b3, b2, b1);
  }

  /**
   * What a colour input yields (`#rrggbb`, lower case) survives the trip
   * through `toColorNum` and `getColor(...).slice(0, -2)`: the number carries
   * the three bytes and an opaque alpha, and prints back as the same text.
   */
  lemma {:induction false} ColorInputRoundTrip(h: string)
    requires |h| == 6 && AllLowerHex(h)
    ensures AllDigits(h, 16)
    ensures var n := ColorNumber("#" + h);
      InRange(n) && n == Opaque(ValueOf(h, 16))
      && RgbaHex(n) == Some("#" + h + "ff")
      && RgbaHex(n).value[..|RgbaHex(n).value| - 2] == "#" + h
      && RgbHex(n) == Some("#" + h)
  {
    ColorNumberOfInput(h);
    OpaqueColorOfInput(h);
    assert ("#" + h + "ff")[..7] == "#" + h;
  }

  // ---------------------------------------------------------------------------
  // Dark colours

  function Max3(a: nat, b: nat, c: nat): nat {
    if a >= b && a >= c then a else if b >= c then b else c
  }

  function Min3(a: nat, b: nat, c: nat): nat {
    if a <= b && a <= c then a else if b <= c then b else c
  }

  /** The lightness of a colour, the mean of its brightest and darkest channel, is at most half. */
  predicate DarkRgb(r: nat, g: nat, b: nat) {
    Max3(r, g, b) + Min3(r, g, b) <= 255
  }

  /** `isDark`: whether the colour bytes of a colour number are dark. */
  function IsDark(c: int): (dark: bool)
    ensures Max3(Byte(c, 3), Byte(c, 2), Byte(c, 1)) <= 127 ==> dark
    ensures Min3(Byte(c, 3), Byte(c, 2), Byte(c, 1)) >= 128 ==> !dark
  {
    DarkRgb(Byte(c, 3), Byte(c, 2), Byte(c, 1))
  }

  /** Adding an alpha byte below the colour bytes moves none of them. */
  lemma {:induction false} AlphaKeepsBytes(q: int, a: nat)
    requires a < 256
    ensures Byte(q * 256 + a, 1) == Byte(q * 256, 1)
    ensures Byte(q * 256 + a, 2) == Byte(q * 256, 2)
    ensures Byte(q * 256 + a, 3) == Byte(q * 256, 3)
  {
    var w := q % 0x100_0000;
    var m := q / 0x100_0000;
    assert q == m * 0x100_0000 + w;
    assert q * 256 + a == m * Two32 + (w * 256 + a);
    assert q * 256 == m * Two32 + w * 256;
    assert (q * 256 + a) % Two32 == w * 256 + a;
    assert (q * 256) % Two32 == w * 256;
    assert (w * 256 + a) / 256 == w;
    assert (w * 256) / 256 == w;
  }

  /** Whether a colour is dark does not depend on its alpha byte. */
  lemma {:induction false} IsDarkIgnoresAlpha(q: int, a: nat)
    requires a < 256
    ensures IsDark(q * 256 + a) == IsDark(q * 256)
  {
    AlphaKeepsBytes(q, a);
  }

  lemma {:induction false} IsDarkOfValue(v: nat, b3: nat, b2: nat, b1: nat)
    requires b3 < 256 && b2 < 256 && b1 < 256
    requires v == (b3 * 256 + b2) * 256 + b1
    ensures IsDark(Opaque(v)) == DarkRgb(b3, b2, b1)
  {
    BytesOf(b3, b2, b1, 255);
  }

  /**
   * A colour read from a colour input is dark exactly when the three channels
   * its `#rrggbb` text names are.
   */
  lemma {:induction false} IsDarkOfInput(h: string)
    requires |h| == 6 && AllLowerHex(h)
    ensures AllDigits([h[0], h[1]], 16) && AllDigits([h[2], h[3]], 16) && AllDigits([h[4], h[5]], 16)
    ensures IsDark(ColorNumber("#" + h)) <==>
      DarkRgb(ValueOf([h[0], h[1]], 16), ValueOf([h[2], h[3]], 16), ValueOf([h[4], h[5]], 16))
  {
    LowerHexDigits([h[0], h[1]]);
    LowerHexDigits([h[2], h[3]]);
    LowerHexDigits([h[4], h[5]]);
    ColorNumberOfInput(h);
    var b3, b2, b1 := InputBytes(h);
    IsDarkOfValue(ValueOf(h, 16), b3, b2, b1);
  }
}
