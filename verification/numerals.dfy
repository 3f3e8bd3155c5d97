/**
 * Integer-to-text and text-to-integer conversions of the JavaScript runtime:
 * `Number.prototype.toString(radix)` for non-negative integers, `padStart`,
 * and `parseInt(s, 16)`.
 */
module Numerals {
  import opened Wrappers
  import opened Text

  const Digits: string := "0123456789abcdef"

  predicate IsRadix(radix: nat) {
    radix == 10 || radix == 16
  }

  /** The lower-case digit character for `d`, as `toString` writes it. */
  function DigitChar(d: nat): char
    requires d < 16
  {
    Digits[d]
  }

  /** The value of `c` as a digit (either letter case), or -1. */
  function DigitValue(c: char): int {
    if '0' <= c <= '9' then c as int - '0' as int
    else if 'a' <= c <= 'f' then c as int - 'a' as int + 10
    else if 'A' <= c <= 'F' then c as int - 'A' as int + 10
    else -1
  }

  predicate IsDigit(c: char, radix: nat) {
    0 <= DigitValue(c) < radix
  }

  predicate AllDigits(s: string, radix: nat) {
    forall i :: 0 <= i < |s| ==> IsDigit(s[i], radix)
  }

  lemma {:induction false} DigitCharValue(d: nat)
    requires d < 16
    ensures DigitValue(DigitChar(d)) == d
  {
  }

  /** `n.toString(radix)` for a non-negative integer. */
  function ToBase(n: nat, radix: nat): (r: string)
    requires IsRadix(radix)
    ensures |r| >= 1 && AllDigits(r, radix)
    decreases n
  {
    if n < radix then
      DigitCharValue(n);
      [DigitChar(n)]
    else
      DivStep(n, radix);
      var q, d := n / radix, n % radix;
      DigitCharValue(d);
      var high := ToBase(q, radix);
      assert forall i :: 0 <= i < |high| ==> (high + [DigitChar(d)])[i] == high[i];
      high + [DigitChar(d)]
  }

  lemma {:induction false} DivStep(n: nat, radix: nat)
    requires IsRadix(radix) && n >= radix
    ensures n / radix < n && n % radix < radix
  {
  }

  /** The number a digit string denotes in `radix`, most significant digit first. */
  function ValueOf(s: string, radix: nat): nat
    requires IsRadix(radix) && AllDigits(s, radix)
    decreases |s|
  {
    if s == [] then 0
    else ValueOf(s[..|s| - 1], radix) * radix + DigitValue(s[|s| - 1])
  }

  /** Reading back what `toString(radix)` wrote gives the number. */
  lemma {:induction false} ValueOfToBase(n: nat, radix: nat)
    requires IsRadix(radix)
    ensures ValueOf(ToBase(n, radix), radix) == n
    decreases n
  {
    var s := ToBase(n, radix);
    if n < radix {
      DigitCharValue(n);
      assert s[..0] == [];
    } else {
      ValueOfToBase(n / radix, radix);
      assert s[..|s| - 1] == ToBase(n / radix, radix);
      DigitCharValue(n % radix);
    }
  }

  /** `s.padStart(width, c)` with a one-character filler. */
  function PadStart(s: string, width: nat, c: char): (r: string)
    ensures |r| == if |s| >= width then |s| else width
    ensures EndsWith(r, s)
    ensures forall i :: 0 <= i < |r| - |s| ==> r[i] == c
    decreases width - |s|
  {
    if |s| >= width then s
    else
      var r := PadStart([c] + s, width, c);
      PadStep(r, s, c);
      r
  }

  /** One more filler character in front of `s` keeps `s` at the end. */
  lemma {:induction false} PadStep(r: string, s: string, c: char)
    requires EndsWith(r, [c] + s)
    requires forall i :: 0 <= i < |r| - |s| - 1 ==> r[i] == c
    ensures EndsWith(r, s)
    ensures forall i :: 0 <= i < |r| - |s| ==> r[i] == c
  {
    var t := r[|r| - |s| - 1..];
    assert t == [c] + s;
    assert r[|r| - |s|..] == t[1..] == s;
    assert r[|r| - |s| - 1] == t[0] == c;
  }

  /** The two digits of a value below `radix * radix`, the high one first. */
  function TwoDigits(n: nat, radix: nat): (r: string)
    requires IsRadix(radix) && n < radix * radix
    ensures |r| == 2 && AllDigits(r, radix)
  {
    DigitCharValue(n / radix);
    DigitCharValue(n % radix);
    [DigitChar(n / radix), DigitChar(n % radix)]
  }

  lemma {:induction false} HighDigitBelow(n: nat, radix: nat)
    requires IsRadix(radix) && n < radix * radix
    ensures n / radix < radix
  {
    if radix == 10 {
      assert n < 100;
    } else {
      assert n < 256;
    }
  }

  lemma {:induction false} PadOne(d: char)
    ensures PadStart([d], 2, '0') == ['0', d]
  {
    assert ['0'] + [d] == ['0', d];
  }

  /** `n.toString(radix).padStart(2, '0')` is the two digits of `n`. */
  lemma {:induction false} PaddedTwoDigits(n: nat, radix: nat)
    requires IsRadix(radix) && n < radix * radix
    ensures PadStart(ToBase(n, radix), 2, '0') == TwoDigits(n, radix)
  {
    if n < radix {
      PaddedOneDigit(n, radix);
    } else {
      PaddedHighDigit(n, radix);
    }
  }

  lemma {:induction false} PaddedOneDigit(n: nat, radix: nat)
    requires IsRadix(radix) && n < radix
    ensures PadStart(ToBase(n, radix), 2, '0') == TwoDigits(n, radix)
  {
    assert ToBase(n, radix) == [DigitChar(n)];
    PadOne(DigitChar(n));
    assert TwoDigits(n, radix) == ['0', DigitChar(n)] by {
      DivSmall(n, radix);
    }
  }

  lemma {:induction false} DivSmall(n: nat, d: nat)
    requires n < d
    ensures n / d == 0 && n % d == n
  {
  }

  lemma {:induction false} PaddedHighDigit(n: nat, radix: nat)
    requires IsRadix(radix) && radix <= n < radix * radix
    ensures PadStart(ToBase(n, radix), 2, '0') == TwoDigits(n, radix)
  {
    HighDigitBelow(n, radix);
    var hi := n / radix;
    assert ToBase(hi, radix) == [DigitChar(hi)];
    var t := ToBase(n, radix);
    assert t == [DigitChar(hi), DigitChar(n % radix)];
    assert PadStart(t, 2, '0') == t;
  }

  /** `b.toString(16).padStart(2, '0')`: the two hex digits of a byte. */
  function Hex2(b: nat): (r: string)
    requires b < 256
    ensures |r| == 2 && AllDigits(r, 16)
  {
    TwoDigits(b, 16)
  }

  /** `n.toString().padStart(2, '0')` for a value below 100. */
  function Dec2(n: nat): (r: string)
    requires n < 100
    ensures |r| == 2 && AllDigits(r, 10)
  {
    TwoDigits(n, 10)
  }

  /** Two digits written by `TwoDigits` read back as the value. */
  lemma {:induction false} TwoDigitsValue(n: nat, radix: nat)
    requires IsRadix(radix) && n < radix * radix
    ensures ValueOf(TwoDigits(n, radix), radix) == n
  {
    var h := TwoDigits(n, radix);
    assert h[..1] == [h[0]];
    assert [h[0]][..0] == [];
    DigitCharValue(n / radix);
    DigitCharValue(n % radix);
    assert ValueOf(h[..1], radix) == DigitValue(h[0]);
    assert n == (n / radix) * radix + n % radix;
  }

  /** The number of leading characters of `s` that are digits of `radix`. */
  function DigitRun(s: string, radix: nat): (k: nat)
    ensures k <= |s| && AllDigits(s[..k], radix)
    ensures k < |s| ==> !IsDigit(s[k], radix)
  {
    if s == [] || !IsDigit(s[0], radix) then 0
    else
      var k := DigitRun(s[1..], radix) + 1;
      assert s[..k] == [s[0]] + s[1..][..k - 1];
      k
  }

  /**
   * `parseInt(s, 16)`: leading white space is skipped, one sign is taken, a
   * "0x"/"0X" prefix is dropped, then the longest run of hex digits is read.
   * No digits at all gives NaN, written `None`.
   */
  function ParseIntHex(s: string): Option<int> {
    var t := TrimStart(s);
    var negative := t != [] && t[0] == '-';
    var u := if t != [] && (t[0] == '-' || t[0] == '+') then t[1..] else t;
    var n := HexRun(Unprefixed(u));
    if n.None? then None
    else
      var v: int := n.value;
      Some(if negative then -v else v)
  }

  /** The text after a "0x" or "0X" prefix, if it has one. */
  function Unprefixed(u: string): string {
    if StartsWith(u, "0x") || StartsWith(u, "0X") then u[2..] else u
  }

  /** The value of the leading hex digits, `None` when there are none. */
  function HexRun(v: string): (n: Option<nat>)
    ensures n.None? <==> v == [] || !IsDigit(v[0], 16)
  {
    var k := DigitRun(v, 16);
    if k == 0 then None else Some(ValueOf(v[..k], 16))
  }

  lemma {:induction false} DigitRunAll(s: string, radix: nat)
    requires AllDigits(s, radix)
    ensures DigitRun(s, radix) == |s|
    decreases |s|
  {
    if s != [] {
      assert AllDigits(s[1..], radix) by {
        forall i | 0 <= i < |s[1..]| ensures IsDigit(s[1..][i], radix) {
          assert s[1..][i] == s[i + 1];
        }
      }
      DigitRunAll(s[1..], radix);
    }
  }

  /** A non-empty string of hex digits parses to its value. */
  lemma {:induction false} ParseIntHexDigits(h: string)
    requires h != [] && AllDigits(h, 16)
    ensures ParseIntHex(h) == Some(ValueOf(h, 16))
  {
    assert IsDigit(h[0], 16);
    assert TrimStart(h) == h by {
      assert !IsJsSpace(h[0]);
    }
    assert !StartsWith(h, "0x") && !StartsWith(h, "0X") by {
      if |h| >= 2 {
        assert IsDigit(h[1], 16);
      }
    }
    assert DigitRun(h, 16) == |h| by {
      DigitRunAll(h, 16);
    }
    ParseIntHexPlain(h);
  }

  /** Text with no space, sign or prefix in front parses to the value of its digits. */
  lemma {:induction false} ParseIntHexPlain(h: string)
    requires h != [] && AllDigits(h, 16) && TrimStart(h) == h
    requires h[0] != '-' && h[0] != '+' && !StartsWith(h, "0x") && !StartsWith(h, "0X")
    requires DigitRun(h, 16) == |h|
    ensures ParseIntHex(h) == Some(ValueOf(h, 16))
  {
    assert Unprefixed(h) == h;
    HexRunAll(h);
    var n := HexRun(Unprefixed(h));
    assert n == Some(ValueOf(h, 16));
    var v: int := n.value;
    assert ParseIntHex(h) == Some(v);
  }

  /** A run of hex digits reaching the end of the text is read whole. */
  lemma {:induction false} HexRunAll(h: string)
    requires h != [] && DigitRun(h, 16) == |h|
    ensures AllDigits(h, 16) && HexRun(h) == Some(ValueOf(h, 16))
  {
    assert h[..|h|] == h;
  }
}
