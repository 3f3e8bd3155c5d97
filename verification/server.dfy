/**
 * The request entry points of the server: the client address taken from
 * `X-Forwarded-For`, the dispatch of an HTTP request to static file mode or to
 * the routes of its host, the dispatch of a protocol upgrade, and the content
 * type of a streamed file.
 */
module Server {
  import opened Wrappers
  import opened Text
  import opened Paths
  import opened Files
  import opened Domains
  import opened Hosts
  import opened Responses
  import opened Routes
  import opened Statics

  // ---------------------------------------------------------------------------
  // The client address

  /** The `x-forwarded-for` header: missing, one value, or repeated. */
  datatype Forwarded = Absent | Single(value: string) | Multiple(values: seq<string>)

  /** The first comma-separated item of a header value. */
  function FirstHop(value: string): (hop: string)
    ensures StartsWith(value, hop) && ',' !in hop
    ensures |hop| == |value| || value[|hop|] == ','
  {
    FirstPiece(value, ',');
    Split(value, ',')[0]
  }

  /**
   * `req.ip`: the socket's remote address, unless forwarded-for headers are
   * trusted and one is present and non-empty, in which case the first hop of
   * its first value.
   */
  function ClientIp(trust: bool, header: Forwarded, remote: Option<string>): (ip: Option<string>)
    ensures !trust ==> ip == remote
    ensures trust && (header.Absent? || header == Single("") || header == Multiple([])) ==> ip == remote
    ensures trust && header.Single? && header.value != "" ==> ip == Some(FirstHop(header.value))
    ensures trust && header.Multiple? && header.values != [] ==> ip == Some(FirstHop(header.values[0]))
  {
    if !trust then remote
    else match header
      case Absent => remote
      case Single(v) => if v == "" then remote else Some(FirstHop(v))
      case Multiple(vs) => if vs == [] then remote else Some(FirstHop(vs[0]))
  }

  /** A trusted header naming a single hop is that hop. */
  lemma {:induction false} ClientIpSingleHop(hop: string, remote: Option<string>)
    requires hop != "" && ',' !in hop
    ensures ClientIp(true, Single(hop), remote) == Some(hop)
  {
    SplitWithout(hop, ',');
  }

  /** The hops a proxy chain appends after the first do not change the address. */
  lemma {:induction false} ClientIpIgnoresLaterHops(hop: string, rest: string, remote: Option<string>)
    requires ',' !in hop
    ensures ClientIp(true, Single(hop + "," + rest), remote) == Some(hop)
  {
    assert hop + "," + rest == hop + [','] + rest;
    SplitAround(hop, rest, ',');
    SplitWithout(hop, ',');
    assert hop + "," + rest != "";
  }

  // ---------------------------------------------------------------------------
  // Content type

  /**
   * The content type `sendFile` sets: `image/x-icon` for `.ico`, otherwise the
   * type `types` gives the extension ("txt" when there is none), or
   * `text/plain`.
   */
  function ContentType(file: string, types: map<string, string>): (ct: string)
    ensures Extname(file) == ".ico" ==> ct == "image/x-icon"
    ensures (Extname(file) != ".ico" && |Extname(file)| > 1 && Extname(file)[1..] in types
      && types[Extname(file)[1..]] != "") ==> ct == types[Extname(file)[1..]]
    ensures |Extname(file)| <= 1 ==> ct == (if "txt" in types && types["txt"] != "" then types["txt"] else "text/plain")
    ensures (Extname(file) != ".ico" && |Extname(file)| > 1
      && (Extname(file)[1..] !in types || types[Extname(file)[1..]] == "")) ==> ct == "text/plain"
  {
    var e := Extname(file);
    var ext := if |e| <= 1 then "txt" else e[1..];
    if ext == "ico" then "image/x-icon"
    else if ext in types && types[ext] != "" then types[ext]
    else "text/plain"
  }

  // ---------------------------------------------------------------------------
  // Dispatch

  /**
   * `internalMiddleware`: an unknown host gets a 400; the site root of a known
   * host decides between static file mode and routes. Listing a site root that
   * is not a directory throws.
   */
  function HandleRequest(ds: seq<Domain>, fs: Fs, reg: Registry, req: Request, guard: Guard): (o: Outcome)
    ensures o == UnknownHost <==> Lookup(ds, req.hostname).None?
    ensures o == Crash <==> Lookup(ds, req.hostname).Some? && !IsDir(fs, SiteRoot(Lookup(ds, req.hostname).value))
    ensures o.RunRoute? ==> IsFile(fs, o.route) && o.route in reg && reg[o.route] == Callable(2)
    ensures o.SendFile? || o.RunMixin? ==> IsFile(fs, o.file)
    ensures Lookup(ds, req.hostname).Some? && DocumentDir(fs, SiteRoot(Lookup(ds, req.hostname).value)) == Some(true) ==>
      o == FileModeRequest(fs, reg, SiteRoot(Lookup(ds, req.hostname).value), req, guard)
    ensures Lookup(ds, req.hostname).Some? && DocumentDir(fs, SiteRoot(Lookup(ds, req.hostname).value)) == Some(false) ==>
      o == MiddlewareMode(fs, reg, SiteRoot(Lookup(ds, req.hostname).value), req, guard)
  {
    match Lookup(ds, req.hostname)
    case None => UnknownHost
    case Some(site) =>
      var root := SiteRoot(site);
      match DocumentDir(fs, root)
      case None => Crash
      case Some(true) => FileModeRequest(fs, reg, root, req, guard)
      case Some(false) => MiddlewareMode(fs, reg, root, req, guard)
  }

  /** What happens to an upgrade request's socket. */
  datatype Upgrade =
    | Destroy                 // the socket is destroyed
    | RunUpgrade(route: string) // the route's default export takes the socket
    | UpgradeFailed           // an exception rejects the callback's promise

  /**
   * `upgradeCallback`: the routes of the host's site root (its `routes`
   * directory for a document site) are searched; only a three-parameter
   * default export is run.
   */
  function HandleUpgrade(ds: seq<Domain>, fs: Fs, reg: Registry, req: Request): (u: Upgrade)
    ensures Lookup(ds, req.hostname).None? ==> u == Destroy
    ensures u.RunUpgrade? ==> IsFile(fs, u.route) && u.route in reg && reg[u.route] == Callable(3)
    ensures u == UpgradeFailed <==>
      Lookup(ds, req.hostname).Some? && !IsDir(fs, SiteRoot(Lookup(ds, req.hostname).value))
    ensures Lookup(ds, req.hostname).Some? && IsDir(fs, SiteRoot(Lookup(ds, req.hostname).value)) ==>
      var root := SiteRoot(Lookup(ds, req.hostname).value);
      var base := if IsFile(fs, Join(root, "index.html")) then Join(root, "routes") else root;
      var route := ResolveUpgradeRoute(fs, base, req.pathname);
      u == (if route.Some? && route.value in reg && reg[route.value] == Callable(3) then RunUpgrade(route.value) else Destroy)
  {
    match Lookup(ds, req.hostname)
    case None => Destroy
    case Some(site) =>
      var root := SiteRoot(site);
      match DocumentDir(fs, root)
      case None => UpgradeFailed
      case Some(doc) =>
        var base := if doc then Join(root, "routes") else root;
        match ResolveUpgradeRoute(fs, base, req.pathname)
        case None => Destroy
        case Some(route) =>
          if route in reg && reg[route] == Callable(3) then RunUpgrade(route) else Destroy
  }

  /** No module handles both plain requests and upgrades: the arities differ. */
  lemma {:induction false} ArityPartition(ds: seq<Domain>, fs: Fs, reg: Registry, req1: Request, req2: Request, guard: Guard, m: string)
    ensures !(HandleRequest(ds, fs, reg, req1, guard) == RunRoute(m) && HandleUpgrade(ds, fs, reg, req2) == RunUpgrade(m))
  {
  }

  /** A host that matches no domain is answered 400 "Unknown host", and its upgrade is destroyed. */
  lemma {:induction false} UnknownHostAnswer(ds: seq<Domain>, fs: Fs, reg: Registry, req: Request, guard: Guard)
    requires forall j :: 0 <= j < |ds| ==> !Serves(ds[j], req.hostname)
    ensures HandleRequest(ds, fs, reg, req, guard) == UnknownHost
    ensures Status(UnknownHost) == Some(400)
    ensures HandleUpgrade(ds, fs, reg, req) == Destroy
  {
  }

  /**
   * With the containment guard, for a site root in normal form, nothing outside
   * the site root is sent, rendered, or loaded as a route.
   */
  lemma {:induction false} RequestStaysInSite(ds: seq<Domain>, fs: Fs, reg: Registry, req: Request)
    requires Lookup(ds, req.hostname).Some? && Canonical(SiteRoot(Lookup(ds, req.hostname).value))
    requires req.pathname != "" && req.pathname[0] == '/'
    ensures var root := SiteRoot(Lookup(ds, req.hostname).value);
      var o := HandleRequest(ds, fs, reg, req, Contained);
      (o.SendFile? || o.RunMixin? ==> Within(o.file, root))
      && (o.RunRoute? || o.RouteFailed? ==> Within(o.route, root))
  {
    var root := SiteRoot(Lookup(ds, req.hostname).value);
    match DocumentDir(fs, root)
    case None =>
    case Some(true) => DocumentSiteWithin(fs, reg, root, req);
    case Some(false) => ContainedRouteWithin(fs, reg, root, req);
  }

  /** In static file mode, the files served and the routes run lie within the site root. */
  lemma {:induction false} DocumentSiteWithin(fs: Fs, reg: Registry, root: string, req: Request)
    requires Canonical(root)
    requires req.pathname != "" && req.pathname[0] == '/'
    ensures var o := FileModeRequest(fs, reg, root, req, Contained);
      (o.SendFile? || o.RunMixin? ==> Within(o.file, root))
      && (o.RunRoute? || o.RouteFailed? ==> Within(o.route, root))
  {
    ContainedServesWithin(fs, reg, root, req);
    var o := FileModeRequest(fs, reg, root, req, Contained);
    if o.RunRoute? || o.RouteFailed? {
      JoinChild(root, "routes");
      ContainedRouteWithin(fs, reg, Join(root, "routes"), req);
      WithinRoutes(o.route, root);
    }
  }

  /** Within `root/routes` is within `root`. */
  lemma {:induction false} WithinRoutes(p: string, root: string)
    requires Within(p, root + "/" + "routes")
    ensures Within(p, root)
  {
    assert p[..|root| + 1] == (root + "/" + "routes")[..|root| + 1];
  }
}
