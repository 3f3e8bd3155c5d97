/**
 * Dynamic routing: finding the route module that handles a pathname under a
 * routes directory, for HTTP requests and for protocol upgrades.
 *
 * The full pathname is tried first, as `<path>.ts` and as `<path>/index.ts`.
 * Otherwise the pathname's '/'-separated segments are dropped from the end one
 * at a time, and each shorter prefix is tried the same way; the first hit, that
 * is the longest prefix, wins.
 */
module Routes {
  import opened Wrappers
  import opened Text
  import opened Paths
  import opened Files
  import opened Responses

  /**
   * Whether a handler is the code as written, or the variant that refuses a
   * pathname whose joined path leaves the directory it serves.
   */
  datatype Guard = AsWritten | Contained

  /**
   * The probe of one candidate path: `route + ".ts"` unless `route` is the
   * routes directory itself, else `route/index.ts` when `route` is a directory.
   */
  function RouteCandidate(fs: Fs, base: string, route: string): (r: Option<string>)
    ensures r.Some? ==> IsFile(fs, r.value)
    ensures r.None? <==>
      !(route != base && IsFile(fs, route + ".ts")) && !(IsDir(fs, route) && IsFile(fs, Join(route, "index.ts")))
    ensures r.Some? ==> r.value == route + ".ts" || r.value == Join(route, "index.ts")
  {
    if route != base && IsFile(fs, route + ".ts") then Some(route + ".ts")
    else if IsDir(fs, route) && IsFile(fs, Join(route, "index.ts")) then Some(Join(route, "index.ts"))
    else None
  }

  /** `join(base, join(steps.slice(0, i).join('/')))`: the path of the first `i` segments. */
  function StepRoute(base: string, steps: seq<string>, i: nat): string
    requires i <= |steps|
  {
    Join(base, JoinAll([JoinWith(steps[..i], '/')]))
  }

  /** Whether the path of each number of leading segments finds a module. */
  function Hits(fs: Fs, base: string, steps: seq<string>): (h: seq<bool>)
    ensures |h| == |steps| + 1
    ensures forall k :: 0 <= k < |h| ==> h[k] == RouteCandidate(fs, base, StepRoute(base, steps, k)).Some?
  {
    seq(|steps| + 1, k requires 0 <= k <= |steps| => RouteCandidate(fs, base, StepRoute(base, steps, k)).Some?)
  }

  /**
   * The largest segment count `j <= i` that finds a module, 0 when none does:
   * the shortening loop stops at its first hit, counting down.
   */
  function LastHit(hits: seq<bool>, i: nat): (j: nat)
    requires i < |hits|
    ensures j <= i
    ensures j > 0 ==> hits[j]
    ensures forall k :: j < k <= i ==> !hits[k]
    decreases i
  {
    if i == 0 || hits[i] then i else LastHit(hits, i - 1)
  }

  /** The module the shortening loop finds for `pathname`. */
  function ShortenedRoute(fs: Fs, base: string, pathname: string): (r: Option<string>)
    ensures r.Some? ==> IsFile(fs, r.value)
    ensures var steps := Split(pathname, '/');
      r.Some? <==> exists k :: 1 <= k <= |steps| && RouteCandidate(fs, base, StepRoute(base, steps, k)).Some?
    ensures var steps := Split(pathname, '/');
      r.Some? ==> exists j :: (1 <= j <= |steps| && r == RouteCandidate(fs, base, StepRoute(base, steps, j))
        && forall k :: j < k <= |steps| ==> RouteCandidate(fs, base, StepRoute(base, steps, k)).None?)
  {
    var steps := Split(pathname, '/');
    var j := LastHit(Hits(fs, base, steps), |steps|);
    if j == 0 then None else RouteCandidate(fs, base, StepRoute(base, steps, j))
  }

  /** The route module of an HTTP request under `base`. */
  function ResolveRoute(fs: Fs, base: string, pathname: string): (r: Option<string>)
    ensures r.Some? ==> IsFile(fs, r.value)
    ensures RouteCandidate(fs, base, Join(base, pathname)).Some? ==> r == RouteCandidate(fs, base, Join(base, pathname))
    ensures RouteCandidate(fs, base, Join(base, pathname)).None? ==> r == ShortenedRoute(fs, base, pathname)
  {
    var direct := RouteCandidate(fs, base, Join(base, pathname));
    if direct.Some? then direct else ShortenedRoute(fs, base, pathname)
  }

  /**
   * The route module of an upgrade under `base`. Its first two probes differ from
   * the HTTP ones: `join(base, pathname + ".ts")` is tried even for the root, and
   * `join(base, pathname, "index.ts")` without asking for a directory.
   */
  function ResolveUpgradeRoute(fs: Fs, base: string, pathname: string): (r: Option<string>)
    ensures r.Some? ==> IsFile(fs, r.value)
    ensures IsFile(fs, Join(base, pathname + ".ts")) ==> r == Some(Join(base, pathname + ".ts"))
    ensures !IsFile(fs, Join(base, pathname + ".ts")) && IsFile(fs, Join3(base, pathname, "index.ts")) ==>
      r == Some(Join3(base, pathname, "index.ts"))
    ensures !IsFile(fs, Join(base, pathname + ".ts")) && !IsFile(fs, Join3(base, pathname, "index.ts")) ==>
      r == ShortenedRoute(fs, base, pathname)
  {
    var exact := Join(base, pathname + ".ts");
    var index := Join3(base, pathname, "index.ts");
    if IsFile(fs, exact) then Some(exact)
    else if IsFile(fs, index) then Some(index)
    else ShortenedRoute(fs, base, pathname)
  }

  /** Running a resolved module: its default export must be a two-parameter function. */
  function Invoke(reg: Registry, route: string, req: Request): (o: Outcome)
    ensures o.RunRoute? <==> route in reg && reg[route] == Callable(2)
    ensures o.RouteFailed? <==> route !in reg
    ensures !o.RunRoute? && !o.RouteFailed? ==> o == NotFound(NotFoundBody(req.verb, req.pathname))
  {
    if route !in reg then RouteFailed(route)
    else if reg[route] == Callable(2) then RunRoute(route)
    else NotFound(NotFoundBody(req.verb, req.pathname))
  }

  /** `middlewareModeRequest(req, res, base)`. */
  function MiddlewareMode(fs: Fs, reg: Registry, base: string, req: Request, guard: Guard): (o: Outcome)
    ensures !Exists(fs, base) ==> o == NotFound(NotFoundBody(req.verb, req.pathname))
    ensures o.RunRoute? ==> IsFile(fs, o.route) && o.route in reg && reg[o.route] == Callable(2)
    ensures o.RouteFailed? ==> IsFile(fs, o.route) && o.route !in reg
    ensures o.RunRoute? || o.RouteFailed? || o == NotFound(NotFoundBody(req.verb, req.pathname))
    ensures guard == Contained && !Within(Join(base, req.pathname), base) ==> o == NotFound(NotFoundBody(req.verb, req.pathname))
    ensures Exists(fs, base) && (guard == AsWritten || Within(Join(base, req.pathname), base)) ==>
      o == (if ResolveRoute(fs, base, req.pathname).Some? then Invoke(reg, ResolveRoute(fs, base, req.pathname).value, req)
            else NotFound(NotFoundBody(req.verb, req.pathname)))
  {
    var notFound := NotFound(NotFoundBody(req.verb, req.pathname));
    if !Exists(fs, base) then notFound
    else if guard == Contained && !Within(Join(base, req.pathname), base) then notFound
    else match ResolveRoute(fs, base, req.pathname)
      case None => notFound
      case Some(route) => Invoke(reg, route, req)
  }

  // ---------------------------------------------------------------------------
  // Properties of the resolution

  /** A pathname beginning with '/' splits into an empty first segment. */
  lemma {:induction false} SplitAbsolute(pathname: string)
    requires pathname != "" && pathname[0] == '/'
    ensures Split(pathname, '/')[0] == ""
  {
    assert pathname == ['/'] + pathname[1..];
    SplitCons('/', pathname[1..], '/');
  }

  /**
   * Every path the shortening loop probes lies within the routes directory,
   * whatever the pathname holds: the prefix is normalised as an absolute path
   * first, so ".." cannot climb above it.
   */
  lemma {:induction false} StepRouteShape(base: string, steps: seq<string>, i: nat)
    requires Canonical(base) && 1 <= i <= |steps| && steps[0] == ""
    ensures var st := Stack(StepRoute(base, steps, i));
      AllNames(st) && |Stack(base)| <= |st| && st[..|Stack(base)|] == Stack(base)
      && (StepRoute(base, steps, i) == Render(st, false) || StepRoute(base, steps, i) == Render(st, true))
  {
    var S := Stack(base);
    CanonicalForm(base);
    var x := JoinWith(steps[..i], '/');
    GlueOne(x);
    if i == 1 {
      assert steps[..1] == [""];
      JoinDot(S, false);
      StackRender(S, false);
    } else {
      assert steps[..i] == [""] + steps[1..i];
      JoinWithCons("", steps[1..i], '/');
      NormalizeAbsolute(x);
      JoinedUnder(S, x);
    }
  }

  /** Joining an absolute path in normal form to a directory stack extends the stack. */
  lemma {:induction false} JoinedUnder(S: seq<string>, x: string)
    requires AllNames(S) && S != []
    requires x != "" && x[0] == '/' && Normalize(x) == Render(Stack(x), x[|x| - 1] == '/') && AllNames(Stack(x))
    ensures var route := Join(Render(S, false), JoinAll([x]));
      var st := Stack(route);
      AllNames(st) && |S| <= |st| && st[..|S|] == S
      && (route == Render(st, false) || route == Render(st, true))
  {
    GlueOne(x);
    var T := Stack(x);
    var t := x[|x| - 1] == '/';
    JoinRenderedPath(S, T, false, t);
    var trailing := Render(T, t)[|Render(T, t)| - 1] == '/';
    AllNamesAppend(S, T);
    StackRender(S + T, trailing);
    assert (S + T)[..|S|] == S;
  }

  lemma {:induction false} AllNamesAppend(S: seq<string>, T: seq<string>)
    requires AllNames(S) && AllNames(T)
    ensures AllNames(S + T)
  {
    forall k | 0 <= k < |S + T| ensures IsName((S + T)[k]) {
      if k < |S| { assert (S + T)[k] == S[k]; } else { assert (S + T)[k] == T[k - |S|]; }
    }
  }

  /** A module found for a path within the routes directory is itself within it. */
  lemma {:induction false} CandidateWithin(fs: Fs, base: string, st: seq<string>, t: bool)
    requires Canonical(base) && AllNames(st)
    requires Within(Render(st, t), base)
    requires RouteCandidate(fs, base, Render(st, t)).Some?
    ensures Within(RouteCandidate(fs, base, Render(st, t)).value, base)
  {
    var route := Render(st, t);
    WithinCanonical(route, base);
    assert st != [];
    if route != base && IsFile(fs, route + ".ts") {
      assert (route + ".ts")[..|base| + 1] == route[..|base| + 1];
    } else {
      WithinJoinName(st, t, "index.ts", base);
    }
  }

  /** The shortening loop never leaves the routes directory. */
  lemma {:induction false} ShortenedWithin(fs: Fs, base: string, pathname: string)
    requires Canonical(base) && pathname != "" && pathname[0] == '/'
    ensures ShortenedRoute(fs, base, pathname).Some? ==> Within(ShortenedRoute(fs, base, pathname).value, base)
  {
    var steps := Split(pathname, '/');
    var j := LastHit(Hits(fs, base, steps), |steps|);
    if j > 0 {
      SplitAbsolute(pathname);
      StepRouteWithin(fs, base, steps, j);
    }
  }

  /** A module found for a prefix of the segments lies within the routes directory. */
  lemma {:induction false} StepRouteWithin(fs: Fs, base: string, steps: seq<string>, j: nat)
    requires Canonical(base) && 1 <= j <= |steps| && steps[0] == ""
    requires RouteCandidate(fs, base, StepRoute(base, steps, j)).Some?
    ensures Within(RouteCandidate(fs, base, StepRoute(base, steps, j)).value, base)
  {
    StepRouteShape(base, steps, j);
    var route := StepRoute(base, steps, j);
    var st := Stack(route);
    CanonicalForm(base);
    RenderWithin(Stack(base), st[|Stack(base)|..], route == Render(st, true));
    assert Stack(base) + st[|Stack(base)|..] == st;
    var t := route == Render(st, true);
    assert route == Render(st, t);
    CandidateWithin(fs, base, st, t);
  }

  /**
   * When the joined path stays within the routes directory, so does the module
   * found for it.
   */
  lemma {:induction false} ResolveWithin(fs: Fs, base: string, pathname: string)
    requires Canonical(base) && pathname != "" && pathname[0] == '/'
    requires Within(Join(base, pathname), base)
    ensures ResolveRoute(fs, base, pathname).Some? ==> Within(ResolveRoute(fs, base, pathname).value, base)
  {
    var filePath := Join(base, pathname);
    if RouteCandidate(fs, base, filePath).Some? {
      JoinAbsolute(base, pathname);
      var st := Resolve(Stack(base), Split(pathname, '/'), false);
      CandidateWithin(fs, base, st, pathname[|pathname| - 1] == '/');
    } else {
      ShortenedWithin(fs, base, pathname);
    }
  }

  /**
   * With an `index.ts` at the top of the routes directory every pathname finds
   * a module: the loop's last probe, with one empty segment, is the directory
   * itself.
   */
  lemma {:induction false} ResolveFallsBackToIndex(fs: Fs, base: string, pathname: string)
    requires Canonical(base) && IsDir(fs, base) && IsFile(fs, Join(base, "index.ts"))
    requires pathname != "" && pathname[0] == '/'
    ensures ResolveRoute(fs, base, pathname).Some?
    ensures ResolveUpgradeRoute(fs, base, pathname).Some?
  {
    var steps := Split(pathname, '/');
    SplitAbsolute(pathname);
    assert steps[..1] == [""];
    GlueOne("");
    assert JoinAll([JoinWith(steps[..1], '/')]) == ".";
    CanonicalForm(base);
    JoinDot(Stack(base), false);
    assert StepRoute(base, steps, 1) == base;
    assert Hits(fs, base, steps)[1];
  }

  // ---------------------------------------------------------------------------
  // Containment of the HTTP route

  /**
   * With the containment guard, a module that is run, or fails to load, lies
   * within the routes directory.
   */
  lemma {:induction false} ContainedRouteWithin(fs: Fs, reg: Registry, base: string, req: Request)
    requires Canonical(base) && req.pathname != "" && req.pathname[0] == '/'
    ensures var o := MiddlewareMode(fs, reg, base, req, Contained);
      (o.RunRoute? ==> Within(o.route, base)) && (o.RouteFailed? ==> Within(o.route, base))
  {
    if Exists(fs, base) && Within(Join(base, req.pathname), base) {
      ResolveWithin(fs, base, req.pathname);
    }
  }

  /**
   * As written, the full-path probe takes a pathname that climbs out: for the
   * routes directory `/…/r`, the pathname `/../x` runs `/…/x.ts`, a module
   * beside the directory rather than in it. The containment guard refuses it.
   */
  lemma {:induction false} RouteEscape(st: seq<string>, r: string, x: string, reg: Registry, req: Request)
    requires AllNames(st) && st != [] && IsName(r) && IsName(x) && x != r
    requires req.pathname == "/../" + x
    requires Render(st + [x], false) + ".ts" in reg
    requires reg[Render(st + [x], false) + ".ts"] == Callable(2)
    ensures var base := Render(st + [r], false);
      var outside := Render(st + [x], false);
      var fs := Fs(map[outside + ".ts" := ""], {base});
      Join(base, req.pathname) == outside && !Within(outside, base)
      && MiddlewareMode(fs, reg, base, req, AsWritten) == RunRoute(outside + ".ts")
      && MiddlewareMode(fs, reg, base, req, Contained) == NotFound(NotFoundBody(req.verb, req.pathname))
  {
    var base := Render(st + [r], false);
    var outside := Render(st + [x], false);
    var fs := Fs(map[outside + ".ts" := ""], {base});
    JoinSibling(st, r, x, false);
    RenderSnoc(st, r);
    RenderSnoc(st, x);
    var B := Render(st, false);
    assert outside != base by {
      assert AllNames(st + [r]) && AllNames(st + [x]) by {
        assert forall k :: 0 <= k < |st| ==> (st + [r])[k] == st[k] && (st + [x])[k] == st[k];
      }
      assert st + [r] != st + [x] by {
        assert (st + [r])[|st|] != (st + [x])[|st|];
      }
      RenderInjective(st + [r], st + [x], false, false);
    }
    NameNotBelow(B, x, r);
    assert IsFile(fs, outside + ".ts");
    assert RouteCandidate(fs, base, outside) == Some(outside + ".ts");
  }

  /** A path ending in a slash-free name is not below a sibling of that name. */
  lemma {:induction false} NameNotBelow(b: string, x: string, r: string)
    requires '/' !in x
    ensures !StartsWith(b + "/" + x, b + "/" + r + "/")
  {
    var p := b + "/" + x;
    var q := b + "/" + r + "/";
    var k := |b| + 1 + |r|;
    assert q[k] == '/';
    assert |q| <= |p| ==> p[k] == x[|r|];
  }
}

