/**
 * The profile update endpoint of the bundled site: the method check, the
 * credential check, and the sanitiser that turns the posted JSON into the
 * whitelisted, truncated and clamped profile that is written to the database.
 */
module ProfileApi {
  import opened Wrappers
  import opened Values
  import opened ProfilePage

  /** The longest `bio` and `embedDescription` kept. */
  const LongText: nat := 32768
  /** The longest avatar, music name and url, and background image and video kept. */
  const ShortText: nat := 8192

  /** `s.slice(0, n)`: the first `n` characters, or all of them when there are fewer. */
  function Clip(s: string, n: nat): (r: string)
    ensures |r| <= n && r <= s
    ensures r == s || |r| == n
  {
    if |s| <= n then s else s[..n]
  }

  /** A string property, cut to `n` characters; anything else is dropped. */
  function TextField(v: Value, n: nat): (r: Option<string>)
    ensures r.Some? <==> v.Str?
    ensures r.Some? ==> r.value == Clip(v.s, n)
  {
    if v.Str? then Some(Clip(v.s, n)) else None
  }

  /** A number property; anything else is dropped. */
  function NumberField(v: Value): (r: Option<real>)
    ensures r.Some? <==> v.Num?
    ensures r.Some? ==> r.value == v.n
  {
    if v.Num? then Some(v.n) else None
  }

  /** `Math.max(0, Math.min(1, x))`. */
  function Clamp01(x: real): (r: real)
    ensures 0.0 <= r <= 1.0
    ensures x < 0.0 ==> r == 0.0
    ensures x > 1.0 ==> r == 1.0
    ensures 0.0 <= x <= 1.0 ==> r == x
  {
    if x < 0.0 then 0.0 else if x > 1.0 then 1.0 else x
  }

  datatype Theme = Theme(primary: real, accent: real)
  datatype Music = Music(name: Option<string>, url: string)
  datatype Background = Background(
    kind: Value,
    color: Option<real>,
    image: Option<string>,
    video: Option<string>,
    opacity: Option<real>)

  /** The sanitised profile: each property is present or absent. */
  datatype Profile = Profile(
    bio: Option<string>,
    avatar: Option<string>,
    theme: Option<Theme>,
    music: Option<Music>,
    background: Option<Background>,
    embedDescription: Option<string>,
    noSanitize: Option<bool>)

  /** Whether evaluating the sanitiser threw (and the route answered 400). */
  datatype Try<T> = Threw | Done(value: T)

  /**
   * The database write: `target` is the user whose document is updated when a
   * developer names one in the request, `None` when it is the caller.
   */
  datatype Update = Update(target: Option<string>, profile: Profile)

  /** `v.k` on a value already known not to be nullish. */
  function Prop(v: Value, k: string): Value
    requires !v.Undefined? && !v.Null?
  {
    Get(v, k).value
  }

  /** The `theme` block: kept only when both colours are non-zero numbers. */
  function SanitizeTheme(t: Value): (r: Try<Option<Theme>>)
    ensures r.Threw? <==> t.Null?
    ensures r.Done? && r.value.Some? <==>
      IsObject(t) && !t.Null?
      && Prop(t, "primary").Num? && Prop(t, "primary").n != 0.0
      && Prop(t, "accent").Num? && Prop(t, "accent").n != 0.0
    ensures r.Done? && r.value.Some? ==>
      r.value.value == Theme(Prop(t, "primary").n, Prop(t, "accent").n)
  {
    if !IsObject(t) then Done(None)
    else if t.Null? then Threw
    else
      var primary := NumberField(Prop(t, "primary"));
      var accent := NumberField(Prop(t, "accent"));
      if primary.Some? && primary.value != 0.0 && accent.Some? && accent.value != 0.0
      then Done(Some(Theme(primary.value, accent.value)))
      else Done(None)
  }

  /** The `music` block: kept only when its url is a non-empty string. */
  function SanitizeMusic(m: Value): (r: Try<Option<Music>>)
    ensures r.Threw? <==> m.Null?
    ensures r.Done? && r.value.Some? <==>
      IsObject(m) && !m.Null? && Prop(m, "url").Str? && Prop(m, "url").s != ""
    ensures r.Done? && r.value.Some? ==>
      r.value.value == Music(TextField(Prop(m, "name"), ShortText), Clip(Prop(m, "url").s, ShortText))
  {
    if !IsObject(m) then Done(None)
    else if m.Null? then Threw
    else
      var url := TextField(Prop(m, "url"), ShortText);
      if url.Some? && url.value != "" then
        Done(Some(Music(TextField(Prop(m, "name"), ShortText), url.value)))
      else Done(None)
  }

  /** The `background` block: kept only when its type is a background type. */
  function SanitizeBackground(b: Value): (r: Try<Option<Background>>)
    ensures r.Threw? <==> b.Null?
    ensures r.Done? && r.value.Some? <==>
      IsObject(b) && !b.Null? && IsBackgroundType(Prop(b, "type"))
    ensures r.Done? && r.value.Some? ==>
      var bg := r.value.value;
      bg.kind == Prop(b, "type")
      && bg.color == NumberField(Prop(b, "color"))
      && bg.image == TextField(Prop(b, "image"), ShortText)
      && bg.video == TextField(Prop(b, "video"), ShortText)
      && (bg.opacity.Some? <==> Prop(b, "opacity").Num?)
      && (bg.opacity.Some? ==> bg.opacity.value == Clamp01(Prop(b, "opacity").n))
  {
    if !IsObject(b) then Done(None)
    else if b.Null? then Threw
    else
      var kind := Prop(b, "type");
      if !IsBackgroundType(kind) then Done(None)
      else
        var opacity := NumberField(Prop(b, "opacity"));
        Done(Some(Background(
          kind,
          NumberField(Prop(b, "color")),
          TextField(Prop(b, "image"), ShortText),
          TextField(Prop(b, "video"), ShortText),
          if opacity.Some? then Some(Clamp01(opacity.value)) else None)))
  }

  /**
   * The sanitiser. `data` is the parsed body; `horny` is whether the caller's
   * user document marks a developer, `None` when no document was found.
   */
  function Sanitize(data: Value, horny: Option<bool>): (r: Try<Update>)
    ensures r.Threw? <==>
      data.Undefined? || data.Null?
      || Prop(data, "theme").Null? || Prop(data, "music").Null? || Prop(data, "background").Null?
      || (Prop(data, "noSanitize").Bool? && horny.None?)
    ensures r.Done? ==>
      var p := r.value.profile;
      (r.value.target.Some? <==> horny == Some(true) && Prop(data, "name").Str?)
      && (r.value.target.Some? ==> r.value.target.value == Prop(data, "name").s)
      && p.bio == TextField(Prop(data, "bio"), LongText)
      && p.avatar == TextField(Prop(data, "avatar"), ShortText)
      && (p.embedDescription.Some? <==>
            IsObject(Prop(data, "background")) && Prop(data, "embedDescription").Str?)
      && (p.noSanitize.Some? <==> Prop(data, "noSanitize").Bool? && horny == Some(true))
      && (p.noSanitize.Some? ==> p.noSanitize.value == Prop(data, "noSanitize").b)
      && WellFormed(p)
    ensures r.Done? ==>
      var p := r.value.profile;
      SanitizeTheme(Prop(data, "theme")) == Done(p.theme)
      && SanitizeMusic(Prop(data, "music")) == Done(p.music)
      && SanitizeBackground(Prop(data, "background")) == Done(p.background)
      && (IsObject(Prop(data, "background")) ==> p.embedDescription == TextField(Prop(data, "embedDescription"), LongText))
  {
    if data.Undefined? || data.Null? then Threw
    else
      var theme := SanitizeTheme(Prop(data, "theme"));
      var music := SanitizeMusic(Prop(data, "music"));
      var background := SanitizeBackground(Prop(data, "background"));
      var noSanitize := Prop(data, "noSanitize");
      if theme.Threw? || music.Threw? || background.Threw? then Threw
      else if noSanitize.Bool? && horny.None? then Threw
      else Done(Assemble(data, horny, theme.value, music.value, background.value))
  }

  /** The update the sanitiser writes, from the blocks it kept. */
  function Assemble(data: Value, horny: Option<bool>, theme: Option<Theme>, music: Option<Music>,
                    background: Option<Background>): (u: Update)
    requires !data.Undefined? && !data.Null?
    ensures var p := u.profile;
      (u.target.Some? <==> horny == Some(true) && Prop(data, "name").Str?)
      && (u.target.Some? ==> u.target.value == Prop(data, "name").s)
      && p.bio == TextField(Prop(data, "bio"), LongText)
      && p.avatar == TextField(Prop(data, "avatar"), ShortText)
      && p.theme == theme && p.music == music && p.background == background
      && (p.embedDescription.Some? <==>
            IsObject(Prop(data, "background")) && Prop(data, "embedDescription").Str?)
      && (IsObject(Prop(data, "background")) ==> p.embedDescription == TextField(Prop(data, "embedDescription"), LongText))
      && Short(p.bio, LongText) && Short(p.avatar, ShortText) && Short(p.embedDescription, LongText)
      && (p.noSanitize.Some? <==> Prop(data, "noSanitize").Bool? && horny == Some(true))
      && (p.noSanitize.Some? ==> p.noSanitize.value == Prop(data, "noSanitize").b)
  {
    var name := Prop(data, "name");
    var noSanitize := Prop(data, "noSanitize");
    var target := if horny == Some(true) && name.Str? then Some(name.s) else None;
    var embed :=
      if IsObject(Prop(data, "background")) then TextField(Prop(data, "embedDescription"), LongText)
      else None;
    Update(target, Profile(
      TextField(Prop(data, "bio"), LongText),
      TextField(Prop(data, "avatar"), ShortText),
      theme,
      music,
      background,
      embed,
      if noSanitize.Bool? && horny == Some(true) then Some(noSanitize.b) else None))
  }

  // ---------------------------------------------------------------------------
  // What a sanitised profile looks like

  predicate Short(o: Option<string>, n: nat) {
    o.None? || |o.value| <= n
  }

  predicate WellFormedTheme(t: Theme) {
    t.primary != 0.0 && t.accent != 0.0
  }

  predicate WellFormedMusic(m: Music) {
    m.url != "" && |m.url| <= ShortText && Short(m.name, ShortText)
  }

  predicate WellFormedBackground(b: Background) {
    IsBackgroundType(b.kind)
    && Short(b.image, ShortText) && Short(b.video, ShortText)
    && (b.opacity.Some? ==> 0.0 <= b.opacity.value <= 1.0)
  }

  /** Every property within its limits, every block complete. */
  predicate WellFormed(p: Profile) {
    Short(p.bio, LongText) && Short(p.avatar, ShortText)
    && (p.theme.Some? ==> WellFormedTheme(p.theme.value))
    && (p.music.Some? ==> WellFormedMusic(p.music.value))
    && (p.background.Some? ==> WellFormedBackground(p.background.value))
    && Short(p.embedDescription, LongText)
  }

  // ---------------------------------------------------------------------------
  // Posting a profile back

  /** `m` with property `k` set when it is present. */
  function With(m: map<string, Value>, k: string, o: Option<Value>): (r: map<string, Value>)
    ensures forall j :: j != k ==> (j in r <==> j in m) && (j in m ==> r[j] == m[j])
    ensures k in r <==> o.Some? || k in m
    ensures o.Some? ==> r[k] == o.value
  {
    if o.Some? then m[k := o.value] else m
  }

  function StrOf(o: Option<string>): Option<Value> {
    if o.Some? then Some(Str(o.value)) else None
  }

  function NumOf(o: Option<real>): Option<Value> {
    if o.Some? then Some(Num(o.value)) else None
  }

  function ThemeValue(t: Theme): Value {
    Obj(map["primary" := Num(t.primary), "accent" := Num(t.accent)])
  }

  function MusicValue(m: Music): Value {
    Obj(With(map["url" := Str(m.url)], "name", StrOf(m.name)))
  }

  function BackgroundValue(b: Background): Value {
    var m := map["type" := b.kind];
    var m := With(m, "color", NumOf(b.color));
    var m := With(m, "image", StrOf(b.image));
    var m := With(m, "video", StrOf(b.video));
    Obj(With(m, "opacity", NumOf(b.opacity)))
  }

  /** The properties a client posts back for a profile, by name. */
  const ProfileKeys: set<string> :=
    {"bio", "avatar", "theme", "music", "background", "embedDescription", "noSanitize"}

  /** The posted value of property `k` of `p`, `None` when it is left out. */
  function ProfileEntry(p: Profile, k: string): (o: Option<Value>)
    ensures o.Some? ==> k in ProfileKeys
  {
    if k == "bio" then StrOf(p.bio)
    else if k == "avatar" then StrOf(p.avatar)
    else if k == "theme" then (if p.theme.Some? then Some(ThemeValue(p.theme.value)) else None)
    else if k == "music" then (if p.music.Some? then Some(MusicValue(p.music.value)) else None)
    else if k == "background" then (if p.background.Some? then Some(BackgroundValue(p.background.value)) else None)
    else if k == "embedDescription" then StrOf(p.embedDescription)
    else if k == "noSanitize" then (if p.noSanitize.Some? then Some(Bool(p.noSanitize.value)) else None)
    else None
  }

  /** The profile as the JSON object a client posts back. */
  function ProfileValue(p: Profile): (v: Value)
    ensures v.Obj?
  {
    Obj(map k | k in ProfileKeys && ProfileEntry(p, k).Some? :: ProfileEntry(p, k).value)
  }

  /** Reading a property of the posted profile gives its entry, or `undefined`. */
  lemma {:induction false} ProfileValueProp(p: Profile, k: string)
    ensures Prop(ProfileValue(p), k) == if ProfileEntry(p, k).Some? then ProfileEntry(p, k).value else Undefined
  {
  }

  lemma {:induction false} ClipShort(s: string, n: nat)
    requires |s| <= n
    ensures Clip(s, n) == s && TextField(Str(s), n) == Some(s)
  {
  }

  lemma {:induction false} TextFieldShort(o: Option<string>, n: nat)
    requires Short(o, n)
    ensures TextField(if o.Some? then Str(o.value) else Undefined, n) == o
  {
  }

  /** A complete theme posted back is kept as it is. */
  lemma {:induction false} ThemeRoundTrip(t: Theme)
    requires WellFormedTheme(t)
    ensures SanitizeTheme(ThemeValue(t)) == Done(Some(t))
  {
    assert Prop(ThemeValue(t), "primary") == Num(t.primary);
    assert Prop(ThemeValue(t), "accent") == Num(t.accent);
  }

  /** A complete music block posted back is kept as it is. */
  lemma {:induction false} MusicRoundTrip(m: Music)
    requires WellFormedMusic(m)
    ensures SanitizeMusic(MusicValue(m)) == Done(Some(m))
  {
    var v := MusicValue(m);
    assert Prop(v, "url") == Str(m.url);
    assert Prop(v, "name") == if m.name.Some? then Str(m.name.value) else Undefined;
    ClipShort(m.url, ShortText);
    TextFieldShort(m.name, ShortText);
  }

  /** A complete background posted back is kept as it is. */
  lemma {:induction false} BackgroundRoundTrip(b: Background)
    requires WellFormedBackground(b)
    ensures SanitizeBackground(BackgroundValue(b)) == Done(Some(b))
  {
    var v := BackgroundValue(b);
    assert Prop(v, "type") == b.kind;
    assert Prop(v, "color") == if b.color.Some? then Num(b.color.value) else Undefined;
    assert Prop(v, "image") == if b.image.Some? then Str(b.image.value) else Undefined;
    assert Prop(v, "video") == if b.video.Some? then Str(b.video.value) else Undefined;
    assert Prop(v, "opacity") == if b.opacity.Some? then Num(b.opacity.value) else Undefined;
    TextFieldShort(b.image, ShortText);
    TextFieldShort(b.video, ShortText);
  }

  /** Optional JSON properties read back from a posted profile. */
  function Posted<T>(o: Option<T>, f: T -> Value): Value {
    if o.Some? then f(o.value) else Undefined
  }

  /** The properties of a posted profile, read one by one. */
  lemma {:induction false} ProfileValueProps(p: Profile)
    ensures Prop(ProfileValue(p), "name") == Undefined
    ensures Prop(ProfileValue(p), "bio") == Posted(p.bio, s => Str(s))
    ensures Prop(ProfileValue(p), "avatar") == Posted(p.avatar, s => Str(s))
    ensures Prop(ProfileValue(p), "theme") == Posted(p.theme, ThemeValue)
    ensures Prop(ProfileValue(p), "music") == Posted(p.music, MusicValue)
    ensures Prop(ProfileValue(p), "background") == Posted(p.background, BackgroundValue)
    ensures Prop(ProfileValue(p), "embedDescription") == Posted(p.embedDescription, s => Str(s))
    ensures Prop(ProfileValue(p), "noSanitize") == Posted(p.noSanitize, b => Bool(b))
  {
    ProfileValueProp(p, "name");
    ProfileValueProp(p, "bio");
    ProfileValueProp(p, "avatar");
    ProfileValueProp(p, "theme");
    ProfileValueProp(p, "music");
    ProfileValueProp(p, "background");
    ProfileValueProp(p, "embedDescription");
    ProfileValueProp(p, "noSanitize");
  }

  /** The sanitiser assembled from what it makes of each property. */
  lemma {:induction false} SanitizeFromParts(data: Value, horny: Option<bool>, p: Profile)
    requires data.Obj? && !Prop(data, "name").Str?
    requires SanitizeTheme(Prop(data, "theme")) == Done(p.theme)
    requires SanitizeMusic(Prop(data, "music")) == Done(p.music)
    requires SanitizeBackground(Prop(data, "background")) == Done(p.background)
    requires TextField(Prop(data, "bio"), LongText) == p.bio
    requires TextField(Prop(data, "avatar"), ShortText) == p.avatar
    requires IsObject(Prop(data, "background")) ==> TextField(Prop(data, "embedDescription"), LongText) == p.embedDescription
    requires !IsObject(Prop(data, "background")) ==> p.embedDescription.None?
    requires Prop(data, "noSanitize") == Posted(p.noSanitize, b => Bool(b))
    requires p.noSanitize.Some? ==> horny == Some(true)
    ensures Sanitize(data, horny) == Done(Update(None, p))
  {
  }

  /**
   * What a sanitised profile becomes when it is posted back: a description
   * stays only together with a background.
   */
  function Settled(p: Profile): (q: Profile)
    ensures q.embedDescription.Some? ==> q.background.Some?
    ensures q == p <==> (p.embedDescription.Some? ==> p.background.Some?)
    ensures q.(embedDescription := p.embedDescription) == p
  {
    if p.background.Some? then p else p.(embedDescription := None)
  }

  /**
   * A sanitised profile posted back by its owner is written as it is, except
   * that a description without a background is dropped; with its `noSanitize`
   * flag posted by a developer.
   */
  lemma {:induction false} SanitizeRoundTrip(p: Profile, horny: Option<bool>)
    requires WellFormed(p)
    requires p.noSanitize.Some? ==> horny == Some(true)
    ensures Sanitize(ProfileValue(p), horny) == Done(Update(None, Settled(p)))
    ensures (p.embedDescription.Some? ==> p.background.Some?) ==>
      Sanitize(ProfileValue(p), horny) == Done(Update(None, p))
  {
    PostedBlocks(p);
    PostedTexts(p);
    ProfileValueProp(p, "name");
    ProfileValueProp(p, "noSanitize");
    SanitizeFromParts(ProfileValue(p), horny, Settled(p));
  }

  /**
   * Posting back is idempotent: whatever one round trip writes, a second one
   * writes unchanged.
   */
  lemma {:induction false} SanitizeSettles(p: Profile, horny: Option<bool>)
    requires WellFormed(p)
    requires p.noSanitize.Some? ==> horny == Some(true)
    ensures var q := Sanitize(ProfileValue(p), horny).value.profile;
      Sanitize(ProfileValue(q), horny) == Done(Update(None, q))
  {
    SanitizeRoundTrip(p, horny);
    SanitizeRoundTrip(Settled(p), horny);
  }

  /** The theme, music and background blocks of a posted profile are read back as they were. */
  lemma {:induction false} PostedBlocks(p: Profile)
    requires WellFormed(p)
    ensures SanitizeTheme(Prop(ProfileValue(p), "theme")) == Done(p.theme)
    ensures SanitizeMusic(Prop(ProfileValue(p), "music")) == Done(p.music)
    ensures SanitizeBackground(Prop(ProfileValue(p), "background")) == Done(p.background)
    ensures IsObject(Prop(ProfileValue(p), "background")) <==> p.background.Some?
  {
    ProfileValueProp(p, "theme");
    ProfileValueProp(p, "music");
    ProfileValueProp(p, "background");
    if p.theme.Some? { ThemeRoundTrip(p.theme.value); }
    if p.music.Some? { MusicRoundTrip(p.music.value); }
    if p.background.Some? { BackgroundRoundTrip(p.background.value); }
  }

  /** The text properties of a posted profile are read back as they were. */
  lemma {:induction false} PostedTexts(p: Profile)
    requires WellFormed(p)
    ensures TextField(Prop(ProfileValue(p), "bio"), LongText) == p.bio
    ensures TextField(Prop(ProfileValue(p), "avatar"), ShortText) == p.avatar
    ensures TextField(Prop(ProfileValue(p), "embedDescription"), LongText) == p.embedDescription
  {
    ProfileValueProp(p, "bio");
    ProfileValueProp(p, "avatar");
    ProfileValueProp(p, "embedDescription");
    TextFieldShort(p.bio, LongText);
    TextFieldShort(p.avatar, ShortText);
    TextFieldShort(p.embedDescription, LongText);
  }

  /**
   * A description posted with a background of an unknown type is kept while
   * the background is dropped, so posting the result back loses the
   * description: the round trip above needs its background condition.
   */
  lemma {:induction false} DescriptionOutlivesBackground()
    ensures var data := Obj(map["background" := Obj(map[]), "embedDescription" := Str("hi")]);
      var p := Sanitize(data, Some(false)).value.profile;
      p.embedDescription == Some("hi") && p.background.None?
      && Sanitize(ProfileValue(p), Some(false)).value.profile.embedDescription.None?
  {
    var data := Obj(map["background" := Obj(map[]), "embedDescription" := Str("hi")]);
    assert Prop(data, "background") == Obj(map[]);
    assert Prop(Obj(map[]), "type") == Undefined;
    assert Prop(data, "embedDescription") == Str("hi");
    assert SanitizeBackground(Obj(map[])) == Done(None);
    assert Clip("hi", LongText) == "hi";
    var p := Sanitize(data, Some(false)).value.profile;
    assert p.embedDescription == Some("hi") && p.background.None?;
    ProfileValueProps(p);
    assert !IsObject(Prop(ProfileValue(p), "background"));
  }

  // ---------------------------------------------------------------------------
  // The route

  /**
   * The status and plain-text body sent with the database write that
   * succeeded, or no reply at all when the handler throws before its `try`.
   */
  datatype Reply = Reply(status: nat, text: string, written: Option<Update>) | NoReply

  /**
   * Whether the credentials can be taken apart: the header (empty when
   * missing) must hold a space, else destructuring `undefined` throws.
   */
  predicate Parsable(authorization: string) {
    ' ' in authorization
  }

  /**
   * The profile update route. `authorization` is the Authorization header
   * ("" when missing), `authorized` the verdict of the credential check on
   * the names it encodes, `body` the parsed request body (`None` when it is
   * not JSON), `horny` as for `Sanitize`, and `writeFails` whether the
   * database rejects the update.
   */
  function ProfileRoute(verb: Option<string>, authorization: string, authorized: bool, body: Option<Value>,
                        horny: Option<bool>, writeFails: bool): (r: Reply)
    ensures r.NoReply? <==> verb == Some("POST") && !Parsable(authorization)
    ensures r.Reply? && r.status == 405 <==> verb != Some("POST")
    ensures r.Reply? && r.status == 401 <==> verb == Some("POST") && Parsable(authorization) && !authorized
    ensures r.Reply? && r.status == 200 <==>
      verb == Some("POST") && Parsable(authorization) && authorized && body.Some?
      && Sanitize(body.value, horny).Done? && !writeFails
    ensures r.Reply? ==> r.status in {200, 400, 401, 405}
    ensures r.Reply? && r.written.Some? <==> r.Reply? && r.status == 200
    ensures r.Reply? && r.written.Some? ==> Sanitize(body.value, horny) == Done(r.written.value)
    ensures r.Reply? ==> r.text == match r.status
      case 200 => "OK"
      case 400 => "Bad Request"
      case 401 => "Unauthorized"
      case _ => "Method Not Allowed"
  {
    if verb != Some("POST") then Reply(405, "Method Not Allowed", None)
    else if !Parsable(authorization) then NoReply
    else if !authorized then Reply(401, "Unauthorized", None)
    else if body.None? then Reply(400, "Bad Request", None)
    else
      match Sanitize(body.value, horny)
      case Threw => Reply(400, "Bad Request", None)
      case Done(u) =>
        if writeFails then Reply(400, "Bad Request", None) else Reply(200, "OK", Some(u))
  }

  /**
   * An owner who posts back a sanitised profile, with credentials the check
   * accepts, gets a 200 and the write of that profile as it settles.
   */
  lemma {:induction false} ProfileRouteRoundTrip(p: Profile, authorization: string, horny: Option<bool>)
    requires WellFormed(p) && Parsable(authorization)
    requires p.noSanitize.Some? ==> horny == Some(true)
    ensures ProfileRoute(Some("POST"), authorization, true, Some(ProfileValue(p)), horny, false)
      == Reply(200, "OK", Some(Update(None, Settled(p))))
  {
    SanitizeRoundTrip(p, horny);
  }
}
