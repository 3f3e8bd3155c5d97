/**
 * Static file mode: the handling of a request for a site whose directory holds
 * an `index.html`.
 *
 * The pathname is joined onto the site root. Paths outside the root and inside
 * its `routes` and `mixins` directories are refused. Otherwise a directory with
 * an `index.html` is served (after a redirect to the slash-terminated
 * pathname), then `<path>.html`, then the file itself; paths covered by the
 * site's `blacklist.txt` are refused. A mixin named after the pathname's
 * extension may render the file instead of streaming it. Without a file the
 * request falls through to the routes directory.
 */
module Statics {
  import opened Wrappers
  import opened Text
  import opened Paths
  import opened Files
  import opened Responses
  import opened Routes

  // ---------------------------------------------------------------------------
  // The blacklist

  /** Every line trimmed. */
  function TrimAll(lines: seq<string>): (r: seq<string>)
    ensures |r| == |lines| && forall i :: 0 <= i < |lines| ==> r[i] == Trim(lines[i])
  {
    seq(|lines|, i requires 0 <= i < |lines| => Trim(lines[i]))
  }

  /** The non-blank lines, in order. */
  function NonBlank(lines: seq<string>): (r: seq<string>)
    ensures forall e :: e in r <==> e in lines && e != ""
  {
    if lines == [] then []
    else if lines[0] == "" then NonBlank(lines[1..])
    else [lines[0]] + NonBlank(lines[1..])
  }

  /** The lines of the blacklist, trimmed, blank ones dropped, in order. */
  function BlacklistEntries(lines: seq<string>): (r: seq<string>)
    ensures forall e :: e in r <==> e != "" && exists i :: 0 <= i < |lines| && Trim(lines[i]) == e
  {
    var trimmed := TrimAll(lines);
    assert forall e :: e in trimmed <==> exists i :: 0 <= i < |lines| && Trim(lines[i]) == e;
    NonBlank(trimmed)
  }

  function BlacklistFile(root: string): string {
    Join(root, "blacklist.txt")
  }

  /** The site's blacklist entries; none when `blacklist.txt` is not a regular file. */
  function Blacklist(fs: Fs, root: string): seq<string> {
    var f := BlacklistFile(root);
    if IsFile(fs, f) then BlacklistEntries(Split(fs.files[f], '\n')) else []
  }

  /** Entry `e` covers every path that starts with `join(root, e)`, as a string. */
  predicate Covers(root: string, e: string, p: string) {
    StartsWith(p, Join(root, e))
  }

  /** The blacklist refuses the request when an entry covers the file to send or the joined path. */
  predicate Blocked(root: string, entries: seq<string>, file: Option<string>, filePath: string) {
    exists k :: 0 <= k < |entries| &&
      ((file.Some? && Covers(root, entries[k], file.value)) || Covers(root, entries[k], filePath))
  }

  // ---------------------------------------------------------------------------
  // Resolution

  /** What a static request resolves to on disk, before the blacklist. */
  datatype Target = RedirectSlash | Serve(file: string) | NoFile

  /**
   * A directory with an `index.html` wins (a pathname not ending in '/' is first
   * redirected), then `<path>.html` unless the path is the root itself, then a
   * regular file at the path.
   */
  function StaticTarget(fs: Fs, root: string, pathname: string): (t: Target)
    ensures t.Serve? ==> IsFile(fs, t.file)
    ensures t.Serve? ==>
      t.file == Join(Join(root, pathname), "index.html")
      || (t.file == Join(root, pathname) + ".html" && Join(root, pathname) != root)
      || t.file == Join(root, pathname)
    ensures t.RedirectSlash? ==> !EndsWith(pathname, "/")
    ensures IsDir(fs, Join(root, pathname)) && IsFile(fs, Join(Join(root, pathname), "index.html")) ==>
      t.RedirectSlash? || t == Serve(Join(Join(root, pathname), "index.html"))
    ensures t.NoFile? ==> !IsFile(fs, Join(root, pathname))
    // precedence: a later candidate is taken only when every earlier one is unavailable
    ensures t.RedirectSlash? <==>
      IsDir(fs, Join(root, pathname)) && IsFile(fs, Join(Join(root, pathname), "index.html"))
      && !EndsWith(pathname, "/")
    ensures t == Serve(Join(root, pathname)) && Join(root, pathname) != root ==>
      !IsFile(fs, Join(root, pathname) + ".html")
    ensures t.NoFile? <==>
      !(IsDir(fs, Join(root, pathname)) && IsFile(fs, Join(Join(root, pathname), "index.html")))
      && !(Join(root, pathname) != root && IsFile(fs, Join(root, pathname) + ".html"))
      && !IsFile(fs, Join(root, pathname))
  {
    var filePath := Join(root, pathname);
    var index := Join(filePath, "index.html");
    if IsDir(fs, filePath) && IsFile(fs, index) then
      if EndsWith(pathname, "/") then Serve(index) else RedirectSlash
    else if filePath != root && IsFile(fs, filePath + ".html") then Serve(filePath + ".html")
    else if IsFile(fs, filePath) then Serve(filePath)
    else NoFile
  }

  // ---------------------------------------------------------------------------
  // Mixins

  /** The extension of the pathname without its dot, "html" when there is none. */
  function MixinExtension(pathname: string): (ext: string)
    ensures ext != "" && '/' !in ext && '.' !in ext
  {
    var e := Extname(pathname);
    if |e| <= 1 then "html"
    else
      assert forall i :: 0 <= i < |e[1..]| ==> e[1..][i] == e[i + 1];
      e[1..]
  }

  /** `join(root, "mixins", ext + ".ts")`. */
  function MixinPath(root: string, pathname: string): string {
    Join3(root, "mixins", MixinExtension(pathname) + ".ts")
  }

  /** Sending a file: through the extension's mixin when one loads as a function, else streamed. */
  function ServeFile(fs: Fs, reg: Registry, root: string, pathname: string, file: string): (o: Outcome)
    ensures o == SendFile(file) || o == RunMixin(MixinPath(root, pathname), file)
    ensures o.RunMixin? <==>
      Exists(fs, MixinPath(root, pathname)) && MixinPath(root, pathname) in reg
      && reg[MixinPath(root, pathname)].Callable?
  {
    var mixin := MixinPath(root, pathname);
    if Exists(fs, mixin) && mixin in reg && reg[mixin].Callable? then RunMixin(mixin, file)
    else SendFile(file)
  }

  /** `fileModeRequest(req, res, root)`. */
  function FileModeRequest(fs: Fs, reg: Registry, root: string, req: Request, guard: Guard): (o: Outcome)
    ensures var filePath := Join(root, req.pathname);
      StartsWith(filePath, Join(root, "routes")) || StartsWith(filePath, Join(root, "mixins"))
      ==> o == NotFound(NotFoundBody(req.verb, req.pathname))
    ensures o.Redirect? ==> o.location == req.pathname + "/" && !EndsWith(req.pathname, "/")
    ensures o.SendFile? || o.RunMixin? ==>
      IsFile(fs, o.file) && o.file != BlacklistFile(root)
      && !Blocked(root, Blacklist(fs, root), Some(o.file), Join(root, req.pathname))
    ensures o.RunMixin? ==> o.mixin in reg && reg[o.mixin].Callable?
    ensures o.NotFound? || o.Redirect? || o.SendFile? || o.RunMixin? || o.RunRoute? || o.RouteFailed?
    ensures o.RunRoute? || o.RouteFailed? ==>
      o == MiddlewareMode(fs, reg, Join(root, "routes"), req, guard)
    ensures o.SendFile? || o.RunMixin? ==>
      StaticTarget(fs, root, req.pathname) == Serve(o.file)
      && (guard == Contained ==> Within(Join(root, req.pathname), root))
    ensures guard == AsWritten && !StartsWith(Join(root, req.pathname), root) ==>
      o == NotFound(NotFoundBody(req.verb, req.pathname))
    ensures guard == Contained && !Within(Join(root, req.pathname), root) ==>
      o == NotFound(NotFoundBody(req.verb, req.pathname))
    ensures var filePath := Join(root, req.pathname);
      (if guard == Contained then Within(filePath, root) else StartsWith(filePath, root))
      && !StartsWith(filePath, Join(root, "routes")) && !StartsWith(filePath, Join(root, "mixins"))
      ==> o == StaticRequest(fs, reg, root, req, guard)
  {
    var filePath := Join(root, req.pathname);
    var outside := if guard == Contained then !Within(filePath, root) else !StartsWith(filePath, root);
    if outside || StartsWith(filePath, Join(root, "routes")) || StartsWith(filePath, Join(root, "mixins")) then
      NotFound(NotFoundBody(req.verb, req.pathname))
    else
      StaticRequest(fs, reg, root, req, guard)
  }

  /**
   * The part of `fileModeRequest` after the path checks: the blacklist, then the
   * file on disk, then the routes directory.
   */
  function StaticRequest(fs: Fs, reg: Registry, root: string, req: Request, guard: Guard): (o: Outcome)
    ensures o.Redirect? ==> o.location == req.pathname + "/" && !EndsWith(req.pathname, "/")
    ensures o.SendFile? || o.RunMixin? ==>
      IsFile(fs, o.file) && o.file != BlacklistFile(root)
      && !Blocked(root, Blacklist(fs, root), Some(o.file), Join(root, req.pathname))
      && StaticTarget(fs, root, req.pathname) == Serve(o.file)
    ensures o.RunMixin? ==> o.mixin in reg && reg[o.mixin].Callable?
    ensures o.NotFound? || o.Redirect? || o.SendFile? || o.RunMixin? || o.RunRoute? || o.RouteFailed?
    ensures o.RunRoute? || o.RouteFailed? ==>
      o == MiddlewareMode(fs, reg, Join(root, "routes"), req, guard)
    ensures StaticTarget(fs, root, req.pathname) == RedirectSlash ==> o == Redirect(req.pathname + "/")
    ensures var t := StaticTarget(fs, root, req.pathname);
      t.Serve? && t.file != BlacklistFile(root) && !Blocked(root, Blacklist(fs, root), Some(t.file), Join(root, req.pathname))
      ==> o == ServeFile(fs, reg, root, req.pathname, t.file)
    ensures var t := StaticTarget(fs, root, req.pathname);
      t.Serve? && (t.file == BlacklistFile(root) || Blocked(root, Blacklist(fs, root), Some(t.file), Join(root, req.pathname)))
      ==> o == NotFound(NotFoundBody(req.verb, req.pathname))
    ensures StaticTarget(fs, root, req.pathname) == NoFile ==>
      o == (if Blocked(root, Blacklist(fs, root), None, Join(root, req.pathname)) then NotFound(NotFoundBody(req.verb, req.pathname))
            else MiddlewareMode(fs, reg, Join(root, "routes"), req, guard))
  {
    var filePath := Join(root, req.pathname);
    var notFound := NotFound(NotFoundBody(req.verb, req.pathname));
    var blacklist := Blacklist(fs, root);
    match StaticTarget(fs, root, req.pathname)
    case RedirectSlash => Redirect(req.pathname + "/")
    case Serve(file) =>
      if Blocked(root, blacklist, Some(file), filePath) || file == BlacklistFile(root) then notFound
      else ServeFile(fs, reg, root, req.pathname, file)
    case NoFile =>
      if Blocked(root, blacklist, None, filePath) then notFound
      else MiddlewareMode(fs, reg, Join(root, "routes"), req, guard)
  }

  // ---------------------------------------------------------------------------
  // Properties

  /** A pathname naming a file with an extension picks the mixin of that extension. */
  lemma {:induction false} MixinForExtension(root: string, dir: string, stem: string, ext: string)
    requires Canonical(root)
    requires stem != "" && ext != "" && '/' !in stem && '/' !in ext && '.' !in ext
    ensures MixinExtension(dir + "/" + stem + "." + ext) == ext
    ensures MixinPath(root, dir + "/" + stem + "." + ext) == root + "/mixins/" + ext + ".ts"
  {
    ExtnameOfFile(dir, stem, ext);
    MixinDirectory(root, ext);
  }

  /** A pathname whose last segment has no '.' picks the `html` mixin. */
  lemma {:induction false} MixinForPlainName(root: string, dir: string, n: string)
    requires Canonical(root) && n != "" && '/' !in n && '.' !in n
    ensures MixinExtension(dir + "/" + n) == "html"
    ensures MixinPath(root, dir + "/" + n) == root + "/mixins/html.ts"
  {
    BaseNameOf(dir, n);
    assert LastDot(n) == -1;
    MixinDirectory(root, "html");
  }

  /**
   * The `routes` and `mixins` refusals are string-prefix tests: a file beside
   * those directories whose name merely begins with `routes` or `mixins`, such
   * as `/routes.html`, is refused with a 404 before the static lookup.
   */
  lemma {:induction false} RoutesPrefixRefused(fs: Fs, reg: Registry, root: string, req: Request, guard: Guard, n: string)
    requires Canonical(root) && IsName(n) && (StartsWith(n, "routes") || StartsWith(n, "mixins"))
    requires req.pathname == "/" + n
    ensures FileModeRequest(fs, reg, root, req, guard) == NotFound(NotFoundBody(req.verb, req.pathname))
  {
    UnderChildName(root, n, "routes");
    UnderChildName(root, n, "mixins");
  }

  /** `join(root, "/" + n)` starts with `join(root, c)` when the name `n` starts with `c`. */
  lemma {:induction false} UnderChildName(root: string, n: string, c: string)
    requires Canonical(root) && IsName(n) && IsName(c)
    ensures StartsWith(n, c) ==> StartsWith(Join(root, "/" + n), Join(root, c))
  {
    JoinRootedName(root, n);
    JoinChild(root, c);
    if StartsWith(n, c) {
      assert (root + "/" + n)[..|root + "/" + c|] == root + "/" + c;
    }
  }

  /** Every mixin lives directly in the site's `mixins` directory. */
  lemma {:induction false} MixinDirectory(root: string, ext: string)
    requires Canonical(root) && ext != "" && '/' !in ext
    ensures Join3(root, "mixins", ext + ".ts") == root + "/mixins/" + ext + ".ts"
  {
    var n := ext + ".ts";
    TsName(ext);
    Join3Nested(root, "mixins", n);
    JoinChild(root, "mixins");
    var m := Join(root, "mixins");
    JoinChild(m, n);
    MixinsPath(root, ext);
  }

  /**
   * With the containment guard, every file sent or rendered lies within the
   * site root.
   */
  lemma {:induction false} ContainedServesWithin(fs: Fs, reg: Registry, root: string, req: Request)
    requires Canonical(root) && req.pathname != "" && req.pathname[0] == '/'
    ensures var o := FileModeRequest(fs, reg, root, req, Contained);
      (o.SendFile? ==> Within(o.file, root)) && (o.RunMixin? ==> Within(o.file, root))
  {
    var o := FileModeRequest(fs, reg, root, req, Contained);
    if o.SendFile? || o.RunMixin? {
      ServedWithin(fs, root, req.pathname, o.file);
    }
  }

  /** The file a path within the root resolves to is within the root too. */
  lemma {:induction false} ServedWithin(fs: Fs, root: string, pathname: string, f: string)
    requires Canonical(root) && pathname != "" && pathname[0] == '/'
    requires Within(Join(root, pathname), root)
    requires StaticTarget(fs, root, pathname) == Serve(f)
    ensures Within(f, root)
  {
    var filePath := Join(root, pathname);
    if f == Join(filePath, "index.html") {
      IndexWithin(root, pathname);
    } else if f != filePath {
      HtmlWithin(filePath, root);
    }
  }

  /** The `index.html` of a directory within the root is within the root. */
  lemma {:induction false} IndexWithin(root: string, pathname: string)
    requires Canonical(root) && pathname != "" && pathname[0] == '/'
    requires Within(Join(root, pathname), root)
    ensures Within(Join(Join(root, pathname), "index.html"), root)
  {
    var filePath := Join(root, pathname);
    JoinAbsolute(root, pathname);
    var st := Resolve(Stack(root), Split(pathname, '/'), false);
    var trailing := pathname[|pathname| - 1] == '/';
    assert filePath == Render(st, trailing);
    WithinCanonical(filePath, root);
    assert st != [];
    WithinJoinName(st, trailing, "index.html", root);
  }

  /** A path strictly below the root, with ".html" appended, is still below it. */
  lemma {:induction false} HtmlWithin(p: string, root: string)
    requires Within(p, root) && p != root
    ensures Within(p + ".html", root)
  {
    assert (p + ".html")[..|root| + 1] == p[..|root| + 1];
  }

  /**
   * The prefix test admits a sibling directory whose name extends the root's:
   * for the root `/…/a` the pathname `/../ab` joins to `/…/ab`, which starts
   * with the string `/…/a` without lying within it, and its file is sent. The
   * containment guard refuses it.
   */
  lemma {:induction false} SiblingPrefixEscape(st: seq<string>, a: string, b: string, content: string,
                            reg: Registry, req: Request)
    requires SiblingNames(st, a, b)
    requires req.pathname == "/../" + b
    ensures var root := Render(st + [a], false);
      var outside := Render(st + [b], false);
      var fs := Fs(map[outside := content], {});
      Join(root, req.pathname) == outside
      && StartsWith(outside, root) && !Within(outside, root)
      && FileModeRequest(fs, reg, root, req, AsWritten) == SendFile(outside)
      && FileModeRequest(fs, reg, root, req, Contained) == NotFound(NotFoundBody(req.verb, req.pathname))
  {
    SiblingPaths(st, a, b);
    SiblingAsWritten(st, a, b, content, reg, req);
    SiblingContained(st, a, b, content, reg, req);
  }

  lemma {:induction false} SiblingAsWritten(st: seq<string>, a: string, b: string, content: string,
                         reg: Registry, req: Request)
    requires SiblingNames(st, a, b) && req.pathname == "/../" + b
    ensures var outside := Render(st + [b], false);
      FileModeRequest(Fs(map[outside := content], {}), reg, Render(st + [a], false), req, AsWritten)
        == SendFile(outside)
  {
    var root := Render(st + [a], false);
    var outside := Render(st + [b], false);
    SiblingPaths(st, a, b);
    NotUnderChild(st, a, b, "routes");
    NotUnderChild(st, a, b, "mixins");
    NotUnderChild(st, a, b, "blacklist.txt");
    SiblingOnlyFile(st, a, b, content, req.pathname);
    PrefixServes(Fs(map[outside := content], {}), reg, root, req, outside);
  }

  /**
   * Under the prefix test, a path that starts with the root, is outside its
   * `routes` and `mixins`, and resolves to a file other than the blacklist is
   * sent, when there is no blacklist and no mixin.
   */
  lemma {:induction false} PrefixServes(fs: Fs, reg: Registry, root: string, req: Request, f: string)
    requires var filePath := Join(root, req.pathname);
      StartsWith(filePath, root)
      && !StartsWith(filePath, Join(root, "routes")) && !StartsWith(filePath, Join(root, "mixins"))
    requires Blacklist(fs, root) == [] && StaticTarget(fs, root, req.pathname) == Serve(f)
    requires f != BlacklistFile(root) && !Exists(fs, MixinPath(root, req.pathname))
    ensures FileModeRequest(fs, reg, root, req, AsWritten) == SendFile(f)
  {
    assert !Blocked(root, [], Some(f), Join(root, req.pathname));
  }

  lemma {:induction false} SiblingContained(st: seq<string>, a: string, b: string, content: string,
                         reg: Registry, req: Request)
    requires SiblingNames(st, a, b) && req.pathname == "/../" + b
    ensures var outside := Render(st + [b], false);
      FileModeRequest(Fs(map[outside := content], {}), reg, Render(st + [a], false), req, Contained)
        == NotFound(NotFoundBody(req.verb, req.pathname))
  {
    SiblingPaths(st, a, b);
  }

  /** `b` names a sibling of directory `a` whose name starts with `a`'s. */
  predicate SiblingNames(st: seq<string>, a: string, b: string) {
    AllNames(st) && st != [] && IsName(a) && IsName(b) && |a| < |b| && b[..|a|] == a
  }

  lemma {:induction false} SiblingPaths(st: seq<string>, a: string, b: string)
    requires SiblingNames(st, a, b)
    ensures var root := Render(st + [a], false);
      var outside := Render(st + [b], false);
      Join(root, "/../" + b) == outside
      && StartsWith(outside, root) && !Within(outside, root)
      && |outside| > |root| && outside[|root|] != '/'
  {
    var base := Render(st, false);
    var root := Render(st + [a], false);
    var outside := Render(st + [b], false);
    JoinSibling(st, a, b, false);
    RenderSnoc(st, a);
    RenderSnoc(st, b);
    assert outside[..|root|] == root;
    assert outside[|root|] == b[|a|];
    assert (root + "/")[|root|] == '/';
  }

  /** The sibling is not inside any directory of the root. */
  lemma {:induction false} NotUnderChild(st: seq<string>, a: string, b: string, n: string)
    requires SiblingNames(st, a, b) && IsName(n)
    ensures var root := Render(st + [a], false);
      var outside := Render(st + [b], false);
      !StartsWith(outside, Join(root, n)) && Join(root, n) != outside
  {
    var root := Render(st + [a], false);
    var outside := Render(st + [b], false);
    SiblingPaths(st, a, b);
    AllNamesSnoc(st, a);
    JoinName(st + [a], false, n);
    RenderSnoc(st + [a], n);
    assert Join(root, n)[|root|] == '/';
  }

  /** In a filesystem holding only the sibling's file, the request resolves to that file. */
  lemma {:induction false} SiblingOnlyFile(st: seq<string>, a: string, b: string, content: string, pathname: string)
    requires SiblingNames(st, a, b) && pathname == "/../" + b
    ensures var root := Render(st + [a], false);
      var outside := Render(st + [b], false);
      var fs := Fs(map[outside := content], {});
      Blacklist(fs, root) == [] && StaticTarget(fs, root, pathname) == Serve(outside)
      && !Exists(fs, MixinPath(root, pathname))
  {
    SiblingNoBlacklist(st, a, b, content);
    SiblingTarget(st, a, b, content, pathname);
    SiblingNoMixin(st, a, b, content, pathname);
  }

  lemma {:induction false} SiblingNoBlacklist(st: seq<string>, a: string, b: string, content: string)
    requires SiblingNames(st, a, b)
    ensures var root := Render(st + [a], false);
      var outside := Render(st + [b], false);
      Blacklist(Fs(map[outside := content], {}), root) == []
  {
    var root := Render(st + [a], false);
    var outside := Render(st + [b], false);
    var fs := Fs(map[outside := content], {});
    NotUnderChild(st, a, b, "blacklist.txt");
    assert !IsFile(fs, BlacklistFile(root));
  }

  lemma {:induction false} SiblingTarget(st: seq<string>, a: string, b: string, content: string, pathname: string)
    requires SiblingNames(st, a, b) && pathname == "/../" + b
    ensures var root := Render(st + [a], false);
      var outside := Render(st + [b], false);
      StaticTarget(Fs(map[outside := content], {}), root, pathname) == Serve(outside)
  {
    var root := Render(st + [a], false);
    var outside := Render(st + [b], false);
    var fs := Fs(map[outside := content], {});
    SiblingPaths(st, a, b);
    assert KindOf(fs, outside) == RegularFile;
    assert KindOf(fs, outside + ".html") == Missing;
  }

  lemma {:induction false} SiblingNoMixin(st: seq<string>, a: string, b: string, content: string, pathname: string)
    requires SiblingNames(st, a, b)
    ensures var root := Render(st + [a], false);
      var outside := Render(st + [b], false);
      !Exists(Fs(map[outside := content], {}), MixinPath(root, pathname))
  {
    var root := Render(st + [a], false);
    var outside := Render(st + [b], false);
    var fs := Fs(map[outside := content], {});
    AllNamesSnoc(st, a);
    AllNamesSnoc(st, b);
    MixinPathBelow(st + [a], pathname);
    var m := MixinPath(root, pathname);
    RenderInjective(Stack(m), st + [b], false, false);
    assert KindOf(fs, m) == Missing;
  }

  /** The mixin path is two levels below the root, so never a sibling of it. */
  lemma {:induction false} MixinPathBelow(st: seq<string>, pathname: string)
    requires AllNames(st) && st != []
    ensures var m := MixinPath(Render(st, false), pathname);
      AllNames(Stack(m)) && m == Render(Stack(m), false) && |Stack(m)| == |st| + 2
  {
    var root := Render(st, false);
    var n := MixinExtension(pathname) + ".ts";
    TsName(MixinExtension(pathname));
    Join3Nested(root, "mixins", n);
    JoinName(st, false, "mixins");
    JoinName(st + ["mixins"], false, n);
    StackRender(st + ["mixins"] + [n], false);
  }

  lemma {:induction false} MixinsPath(root: string, ext: string)
    ensures (root + "/" + "mixins") + "/" + (ext + ".ts") == root + "/mixins/" + ext + ".ts"
  {
    assert "/mixins/" == "/" + "mixins" + "/";
  }

  lemma {:induction false} TsName(ext: string)
    requires ext != "" && '/' !in ext
    ensures IsName(ext + ".ts")
  {
    var n := ext + ".ts";
    forall i | 0 <= i < |n| ensures n[i] != '/' {
      if i < |ext| { assert n[i] == ext[i]; }
    }
  }
}
