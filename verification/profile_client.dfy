/**
 * The profile page's client script, apart from colours: the media player's
 * time display and the settings form's background type select, which maps
 * the stored type number to an option name and back.
 */
module ProfileClient {
  import opened Wrappers
  import opened Text
  import opened Numerals
  import opened Values
  import opened ProfilePage

  // ---------------------------------------------------------------------------
  // Minutes and seconds

  /** Whole minutes of a non-negative time in seconds. */
  function Minutes(sec: real): (m: nat)
    requires sec >= 0.0
    ensures 60.0 * m as real <= sec < 60.0 * m as real + 60.0
  {
    (sec / 60.0).Floor
  }

  /** Whole seconds past the minute: `Math.floor(sec % 60)` for non-negative `sec`. */
  function SecondsPast(sec: real): (s: nat)
    requires sec >= 0.0
    ensures s < 60
    ensures sec.Floor == 60 * Minutes(sec) + s
  {
    (sec - 60.0 * Minutes(sec) as real).Floor
  }

  /**
   * `minSec`: the time as minutes, a colon and two-digit seconds. `None`
   * stands for the falsy times (`undefined`, `NaN`), which show as `0:00`;
   * media times are never negative.
   */
  function MinSec(sec: Option<real>): (t: string)
    requires sec.Some? ==> sec.value >= 0.0
    ensures sec.None? ==> t == "0:00"
    ensures |t| >= 4 && t[|t| - 3] == ':'
  {
    var s := sec.GetOr(0.0);
    var mins := ToBase(Minutes(s), 10);
    var secs := PadStart(ToBase(SecondsPast(s), 10), 2, '0');
    PaddedTwoDigits(SecondsPast(s), 10);
    assert sec.None? ==> mins == "0" && secs == "00" by {
      if sec.None? {
        PaddedTwoDigits(0, 10);
      }
    }
    mins + ":" + secs
  }

  /** Reading a `m:ss` display back as whole seconds. */
  function ParseMinSec(t: string): (r: Option<nat>)
    ensures r.Some? ==> |Split(t, ':')| == 2
  {
    ParseParts(Split(t, ':'))
  }

  /** Minutes and two-digit seconds below 60, as split at the colon. */
  function ParseParts(parts: seq<string>): (r: Option<nat>)
    ensures r.Some? ==> |parts| == 2
  {
    if |parts| == 2 && parts[0] != [] && AllDigits(parts[0], 10)
      && |parts[1]| == 2 && AllDigits(parts[1], 10) && ValueOf(parts[1], 10) < 60
    then Some(ValueOf(parts[0], 10) * 60 + ValueOf(parts[1], 10))
    else None
  }

  lemma {:induction false} DigitsWithoutColon(s: string)
    requires AllDigits(s, 10)
    ensures ':' !in s
  {
    forall i | 0 <= i < |s| ensures s[i] != ':' {
      assert IsDigit(s[i], 10);
    }
  }

  /** The display loses only the fraction of a second. */
  lemma {:induction false} MinSecRoundTrip(sec: real)
    requires sec >= 0.0
    ensures ParseMinSec(MinSec(Some(sec))) == Some(sec.Floor)
  {
    var a, b, m, s := DisplayParts(sec);
    SplitDisplay(a, b);
    ParseDisplay(a, b);
  }

  /** The minutes' digits and the seconds' two digits of a display, and what they denote. */
  lemma {:induction false} DisplayParts(sec: real) returns (a: string, b: string, m: nat, s: nat)
    requires sec >= 0.0
    ensures MinSec(Some(sec)) == a + [':'] + b
    ensures a != [] && AllDigits(a, 10) && |b| == 2 && AllDigits(b, 10)
    ensures ValueOf(a, 10) == m && ValueOf(b, 10) == s && s < 60 && sec.Floor == m * 60 + s
  {
    m, s := Minutes(sec), SecondsPast(sec);
    a, b := ToBase(m, 10), TwoDigits(s, 10);
    assert ValueOf(a, 10) == m by {
      ValueOfToBase(m, 10);
    }
    assert ValueOf(b, 10) == s by {
      TwoDigitsValue(s, 10);
    }
    MinSecParts(sec);
  }

  /** The display is the minutes' digits, a colon, and two digits of seconds. */
  lemma {:induction false} MinSecParts(sec: real)
    requires sec >= 0.0
    ensures MinSec(Some(sec)) == ToBase(Minutes(sec), 10) + [':'] + TwoDigits(SecondsPast(sec), 10)
  {
    PaddedTwoDigits(SecondsPast(sec), 10);
    assert ":" == [':'];
  }

  lemma {:induction false} SplitDisplay(a: string, b: string)
    requires AllDigits(a, 10) && AllDigits(b, 10)
    ensures Split(a + [':'] + b, ':') == [a, b]
  {
    DigitsWithoutColon(a);
    DigitsWithoutColon(b);
    SplitAround(a, b, ':');
    SplitWithout(a, ':');
    SplitWithout(b, ':');
  }

  lemma {:induction false} ParseDisplay(a: string, b: string)
    requires a != [] && AllDigits(a, 10) && |b| == 2 && AllDigits(b, 10) && ValueOf(b, 10) < 60
    requires Split(a + [':'] + b, ':') == [a, b]
    ensures ParseMinSec(a + [':'] + b) == Some(ValueOf(a, 10) * 60 + ValueOf(b, 10))
  {
    assert ParseParts([a, b]) == Some(ValueOf(a, 10) * 60 + ValueOf(b, 10));
  }

  // ---------------------------------------------------------------------------
  // The background type select

  /** The select's options, indexed by the stored type number. */
  const TypeNames: seq<string> := ["none", "color", "image", "video"]

  /** The array index a property key names: a decimal integer string or number. */
  function IndexKey(v: Value): (r: Option<nat>)
    ensures r.Some? ==> v.Num? || v.Str?
  {
    match v
    case Num(n) => if n >= 0.0 && n == n.Floor as real then Some(n.Floor) else None
    case Str(s) =>
      if s != [] && AllDigits(s, 10) && (s == "0" || s[0] != '0') then Some(ValueOf(s, 10)) else None
    case _ => None
  }

  /**
   * `['none', 'color', 'image', 'video'][type || 0]`: the option shown for the
   * stored type, `None` when the index names no option.
   */
  function TypeName(t: Value): (r: Option<string>)
    ensures !Truthy(t) ==> r == Some("none")
    ensures r.Some? ==> r.value in TypeNames
  {
    if !Truthy(t) then Some(TypeNames[0])
    else
      var k := IndexKey(t);
      if k.Some? && k.value < |TypeNames| then Some(TypeNames[k.value]) else None
  }

  /** `['none', 'color', 'image', 'video'].indexOf(name)`. */
  function TypeIndex(name: string): (r: int)
    ensures r == -1 <==> name !in TypeNames
    ensures r >= 0 ==> r < |TypeNames| && TypeNames[r] == name
  {
    if name == "none" then 0
    else if name == "color" then 1
    else if name == "image" then 2
    else if name == "video" then 3
    else -1
  }

  /** The option shown for a stored type number is saved as that number. */
  lemma {:induction false} TypeIndexName(k: nat)
    requires k < |TypeNames|
    ensures TypeName(Num(k as real)).Some?
    ensures TypeIndex(TypeName(Num(k as real)).value) == k
  {
  }

  /** The number saved for an option shows that option. */
  lemma {:induction false} TypeNameIndex(name: string)
    requires name in TypeNames
    ensures TypeIndex(name) >= 0
    ensures TypeName(Num(TypeIndex(name) as real)) == Some(name)
  {
  }

  /**
   * The number the form saves is accepted by the update endpoint exactly when
   * the select holds one of its options.
   */
  lemma {:induction false} SavedTypeAccepted(name: string)
    ensures IsBackgroundType(Num(TypeIndex(name) as real)) <==> name in TypeNames
  {
    BackgroundTypes(Num(TypeIndex(name) as real));
  }

  /**
   * The endpoint also accepts the enum's member names, but a type stored that
   * way matches no option of the select.
   */
  lemma {:induction false} MemberNamesShowNoOption(name: string)
    requires name in BackgroundTypeNames
    ensures IsBackgroundType(Str(name))
    ensures TypeName(Str(name)).None?
  {
    BackgroundTypes(Str(name));
    assert name[0] == 'N' || name[0] == 'C' || name[0] == 'I' || name[0] == 'V';
    assert !IsDigit(name[0], 10);
  }
}
