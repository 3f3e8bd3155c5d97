/**
 * The profile page route of the bundled site: it looks the user up by the
 * request path, strips the secret fields of the stored document, writes the
 * embed meta tags, and inlines the document into a script element.
 */
module ProfilePage {
  import opened Wrappers
  import opened Text
  import opened Values
  import opened Colors

  // ---------------------------------------------------------------------------
  // The background type enum

  /** `enum BackgroundType { None, Color, Image, Video }`, in declaration order. */
  const BackgroundTypeNames: seq<string> := ["None", "Color", "Image", "Video"]

  /**
   * `Object.values(E)` of a compiled numeric enum whose members are `names`:
   * the object maps each name to its index and each index back to its name, and
   * integer keys come first, so the names are listed before the numbers.
   */
  function EnumValues(names: seq<string>): (vs: seq<Value>)
    ensures |vs| == 2 * |names|
    ensures forall i :: 0 <= i < |names| ==> vs[i] == Str(names[i])
    ensures forall i :: |names| <= i < |vs| ==> vs[i] == Num((i - |names|) as real)
  {
    seq(|names|, i requires 0 <= i < |names| => Str(names[i]))
      + seq(|names|, i => Num(i as real))
  }

  /** `Object.values(BackgroundType).includes(v)`. */
  predicate IsBackgroundType(v: Value) {
    v in EnumValues(BackgroundTypeNames)
  }

  /** The accepted background types: a member name, or a member index. */
  lemma {:induction false} BackgroundTypes(v: Value)
    ensures IsBackgroundType(v) <==>
      v in {Str("None"), Str("Color"), Str("Image"), Str("Video"), Num(0.0), Num(1.0), Num(2.0), Num(3.0)}
  {
    var vs := EnumValues(BackgroundTypeNames);
    assert vs[0] == Str("None") && vs[1] == Str("Color") && vs[2] == Str("Image") && vs[3] == Str("Video");
    assert vs[4] == Num(0.0) && vs[5] == Num(1.0) && vs[6] == Num(2.0) && vs[7] == Num(3.0);
    if IsBackgroundType(v) {
      var i :| 0 <= i < 8 && vs[i] == v;
      assert i in {0, 1, 2, 3, 4, 5, 6, 7};
    }
  }

  // ---------------------------------------------------------------------------
  // Escaping

  /** The characters `escapeHtml` removes. */
  predicate Unsafe(c: char) {
    c == '&' || c == '<' || c == '>' || c == '/' || c == '"' || c == '\''
  }

  predicate NoUnsafe(s: string) {
    forall i :: 0 <= i < |s| ==> !Unsafe(s[i])
  }

  /** `escapeHtml`: every `& < > / " '` is deleted. */
  function EscapeHtml(s: string): (r: string)
    ensures NoUnsafe(r)
    ensures |r| <= |s|
  {
    if s == [] then []
    else (if Unsafe(s[0]) then [] else [s[0]]) + EscapeHtml(s[1..])
  }

  /** Text without those characters is left as it is. */
  lemma {:induction false} EscapeHtmlKeepsSafe(s: string)
    requires NoUnsafe(s)
    ensures EscapeHtml(s) == s
  {
    if s != [] {
      assert !Unsafe(s[0]);
      EscapeHtmlKeepsSafe(s[1..]);
      assert [s[0]] + s[1..] == s;
    }
  }

  /** Escaping twice is escaping once. */
  lemma {:induction false} EscapeHtmlIdempotent(s: string)
    ensures EscapeHtml(EscapeHtml(s)) == EscapeHtml(s)
  {
    EscapeHtmlKeepsSafe(EscapeHtml(s));
  }

  /** Escaping works character by character: the kept characters stay in order. */
  lemma {:induction false} EscapeHtmlAppend(a: string, b: string)
    ensures EscapeHtml(a + b) == EscapeHtml(a) + EscapeHtml(b)
  {
    if a != [] {
      assert (a + b)[0] == a[0];
      assert (a + b)[1..] == a[1..] + b;
      EscapeHtmlAppend(a[1..], b);
    } else {
      assert a + b == b;
    }
  }

  /** One character is kept exactly when it is not one of the removed ones. */
  lemma {:induction false} EscapeHtmlChar(c: char)
    ensures EscapeHtml([c]) == if Unsafe(c) then [] else [c]
  {
    assert [c][1..] == [];
  }

  /** `s.replace(/c/g, '\\' + c)`: a backslash before every `c`. */
  function EscapeChar(s: string, c: char): (r: string)
    requires c != '\\'
    ensures forall i :: 0 <= i < |r| && r[i] == c ==> 0 < i && r[i - 1] == '\\'
    ensures |r| >= |s|
  {
    if s == [] then []
    else
      var rest := EscapeChar(s[1..], c);
      var head := if s[0] == c then ['\\', c] else [s[0]];
      assert forall i :: |head| <= i < |head + rest| ==> (head + rest)[i] == rest[i - |head|];
      head + rest
  }

  /** Reading back: a backslash before `c` is dropped, everything else kept. */
  function Unescape(t: string, c: char): string
    requires c != '\\'
    decreases |t|
  {
    if |t| >= 2 && t[0] == '\\' && t[1] == c then [c] + Unescape(t[2..], c)
    else if t == [] then []
    else [t[0]] + Unescape(t[1..], c)
  }

  /** Escaping loses nothing: reading the escaped text back gives the original. */
  lemma {:induction false} UnescapeEscape(s: string, c: char)
    requires c != '\\'
    ensures Unescape(EscapeChar(s, c), c) == s
  {
    if s != [] {
      var rest := EscapeChar(s[1..], c);
      UnescapeEscape(s[1..], c);
      if s[0] == c {
        var t := ['\\', c] + rest;
        assert t[2..] == rest;
      } else {
        var t := [s[0]] + rest;
        assert t[1..] == rest;
        assert rest == [] || rest[0] != c;
      }
      assert [s[0]] + s[1..] == s;
    }
  }

  /** What precedes the document in the inline script. */
  const ScriptOpen := "<script>window.profile = "

  /** The document, its slashes escaped, as the page's inline script. */
  function ProfileScript(json: string): (r: string)
    ensures forall i :: OccursAt(r, "</", i) ==> i == |r| - 9
  {
    var body := EscapeChar(json, '/');
    forall i ensures OccursAt(ScriptOpen + body + "</script>", "</", i) ==> i == |body| + 25 {
      ClosingTagOnlyAtEnd(body, i);
    }
    ScriptOpen + body + "</script>"
  }

  /** With every slash of `body` escaped, the script's only `</` is `</script>`. */
  lemma {:induction false} ClosingTagOnlyAtEnd(body: string, i: int)
    requires forall k :: 0 <= k < |body| && body[k] == '/' ==> 0 < k && body[k - 1] == '\\'
    ensures OccursAt(ScriptOpen + body + "</script>", "</", i) ==> i == |body| + 25
  {
    var r := ScriptOpen + body + "</script>";
    var n := |ScriptOpen|;
    if 0 <= i && i + 2 <= |r| {
      if i + 1 < n {
        assert r[i + 1] == ScriptOpen[i + 1];
        assert forall k :: 0 <= k < n ==> ScriptOpen[k] != '/';
      } else if i + 1 < n + |body| {
        assert r[i + 1] == body[i + 1 - n];
        assert r[i] == if i < n then ' ' else body[i - n];
      } else if i + 1 > n + |body| {
        assert r[i] == "</script>"[i - n - |body|];
      }
      assert r[i..i + 2] == [r[i], r[i + 1]];
    }
  }

  // ---------------------------------------------------------------------------
  // The page

  /** How the `og:title` attribute escapes quotes. */
  datatype TitleQuoting =
    | FirstQuoteG   // `.replace(/"g/, '\\"')`: the first `"g` becomes `\"`
    | EveryQuote    // `.replace(/"/g, '\\"')`, as `og:image` does

  function QuoteTitle(name: string, quoting: TitleQuoting): (t: string)
    ensures quoting == EveryQuote ==>
      forall i :: 0 <= i < |t| && t[i] == '"' ==> 0 < i && t[i - 1] == '\\'
  {
    match quoting
    case FirstQuoteG => ReplaceFirst(name, "\"g", "\\\"")
    case EveryQuote => EscapeChar(name, '"')
  }

  /**
   * A name whose quote is not followed by `g` keeps a bare quote in the
   * `og:title` attribute as the page writes it.
   */
  lemma {:induction false} TitleQuoteUnescaped(x: string)
    requires '"' !in x && (x == [] || x[0] != 'g')
    ensures QuoteTitle("\"" + x, FirstQuoteG) == "\"" + x
    ensures QuoteTitle("\"" + x, EveryQuote) == "\\\"" + x
  {
    var s := "\"" + x;
    forall i ensures !OccursAt(s, "\"g", i) {
      NoQuoteG(x, i);
    }
    assert IndexOf(s, "\"g") == -1;
    EscapeCharWithout(x, '"');
    assert s[1..] == x;
  }

  lemma {:induction false} NoQuoteG(x: string, i: int)
    requires '"' !in x && (x == [] || x[0] != 'g')
    ensures !OccursAt("\"" + x, "\"g", i)
  {
    var s := "\"" + x;
    if 0 <= i && i + 2 <= |s| {
      assert s[i..i + 2] == [s[i], s[i + 1]];
      if i == 0 {
        assert s[1] == x[0];
      } else {
        assert s[i] == x[i - 1];
      }
    }
  }

  lemma {:induction false} EscapeCharWithout(s: string, c: char)
    requires c != '\\' && c !in s
    ensures EscapeChar(s, c) == s
  {
    if s != [] {
      assert c !in s[1..] by {
        forall k | 0 <= k < |s[1..]| ensures s[1..][k] != c {
          assert s[1..][k] == s[k + 1];
        }
      }
      EscapeCharWithout(s[1..], c);
      assert [s[0]] + s[1..] == s;
    }
  }

  /** The stored user document: the properties the page reads, and all of its properties. */
  datatype StoredUser = StoredUser(
    name: string,
    avatar: string,
    primary: int,
    embedDescription: Option<string>,
    fields: map<string, Value>)

  /** The properties deleted before the document leaves the server. */
  predicate Secret(k: string) {
    k == "_id" || k == "pass" || k == "salt"
  }

  datatype Page =
    | UserNotFound   // 404 with the site's 404.html
    | ProfileHtml(themeColor: string, image: string, title: string, description: string,
                  profile: map<string, Value>)

  /** A colour or null, as string concatenation writes it. */
  function ColorText(c: Option<string>): string {
    match c
    case None => "null"
    case Some(t) => t
  }

  /** `pathname.slice(1)`: the path without its leading slash. */
  function UserName(pathname: string): (name: string)
    ensures pathname == [] ==> name == []
    ensures pathname != [] ==> [pathname[0]] + name == pathname
  {
    if pathname == [] then [] else pathname[1..]
  }

  /**
   * The route: the user named by the path after its leading character, the
   * meta tag contents, and the document with its secret properties deleted.
   */
  function RenderProfile(users: map<string, StoredUser>, pathname: string, quoting: TitleQuoting): (p: Page)
    ensures p.UserNotFound? <==> UserName(pathname) !in users
    ensures p.ProfileHtml? ==>
      var u := users[UserName(pathname)];
      (forall k :: k in p.profile <==> k in u.fields && !Secret(k))
      && (forall k :: k in p.profile ==> p.profile[k] == u.fields[k])
      && NoUnsafe(p.description)
      && (forall i :: 0 <= i < |p.image| && p.image[i] == '"' ==> 0 < i && p.image[i - 1] == '\\')
      && (p.themeColor == "null" <==> !InRange(u.primary))
    ensures p.ProfileHtml? ==>
      var u := users[UserName(pathname)];
      p.themeColor == ColorText(RgbHex(u.primary))
      && p.image == EscapeChar(u.avatar, '"')
      && p.title == QuoteTitle(u.name, quoting)
      && p.description == EscapeHtml(u.embedDescription.GetOr(""))
    ensures p.ProfileHtml? && quoting == EveryQuote ==>
      forall i :: 0 <= i < |p.title| && p.title[i] == '"' ==> 0 < i && p.title[i - 1] == '\\'
  {
    var name := UserName(pathname);
    if name !in users then UserNotFound
    else
      var u := users[name];
      var description := match u.embedDescription case None => "" case Some(d) => d;
      var color := RgbHex(u.primary);
      assert color.Some? ==> |color.value| == 7;
      ProfileHtml(
        ColorText(color),
        EscapeChar(u.avatar, '"'),
        QuoteTitle(u.name, quoting),
        EscapeHtml(description),
        map k | k in u.fields && !Secret(k) :: u.fields[k])
  }

  /**
   * The quoting defect reaches the page: a user named `"x` gets an `og:title`
   * with a bare quote as written, and an escaped one when every quote is escaped.
   */
  lemma {:induction false} PageTitleQuoting(users: map<string, StoredUser>, pathname: string, x: string)
    requires UserName(pathname) in users && users[UserName(pathname)].name == "\"" + x
    requires '"' !in x && (x == [] || x[0] != 'g')
    ensures RenderProfile(users, pathname, FirstQuoteG).title == "\"" + x
    ensures RenderProfile(users, pathname, EveryQuote).title == "\\\"" + x
  {
    TitleQuoteUnescaped(x);
  }
}
