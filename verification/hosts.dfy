/**
 * Which virtual host a request, an upgrade or a TLS handshake is for.
 *
 * A host name matches a domain when it is the domain's name, or when it ends
 * with "." + name and what is left after removing the first occurrence of
 * "." + name names one of the domain's subdomains. The first matching domain
 * in index order wins; its files live in the subdomain's directory when there
 * is one, in the domain's otherwise.
 */
module Hosts {
  import opened Wrappers
  import opened Text
  import opened Domains

  /** `host.replace('.' + d.name, '')`: the label a host names under `d`. */
  function SubLabel(d: Domain, host: string): string {
    ReplaceFirst(host, "." + d.name, "")
  }

  /** The position of the first record called `want`, or `|subs|`. */
  function FirstNamed(subs: seq<Domain>, want: string): (k: nat)
    ensures k <= |subs|
    ensures k < |subs| ==> subs[k].name == want
    ensures forall j :: 0 <= j < k ==> subs[j].name != want
    decreases |subs|
  {
    if subs == [] then 0
    else if subs[0].name == want then 0
    else 1 + FirstNamed(subs[1..], want)
  }

  /** `subs.find(s => s.name === want)`. */
  function FindByName(subs: seq<Domain>, want: string): (r: Option<Domain>)
    ensures r.None? <==> forall j :: 0 <= j < |subs| ==> subs[j].name != want
    ensures r.Some? ==> r.value.name == want && r.value in subs
  {
    var k := FirstNamed(subs, want);
    if k < |subs| then Some(subs[k]) else None
  }

  /** `d.subdomains?.find(...)` for the label `host` names under `d`. */
  function SubdomainFor(d: Domain, host: string): Option<Domain> {
    if d.subdomains.None? then None else FindByName(d.subdomains.value, SubLabel(d, host))
  }

  /** The test the request and upgrade paths apply to each domain. */
  predicate Serves(d: Domain, host: string) {
    d.name == host || (EndsWith(host, "." + d.name) && SubdomainFor(d, host).Some?)
  }

  /** The position of the first domain serving `host`, or `|ds|`. */
  function FirstServing(ds: seq<Domain>, host: string): (k: nat)
    ensures k <= |ds|
    ensures k < |ds| ==> Serves(ds[k], host)
    ensures forall j :: 0 <= j < k ==> !Serves(ds[j], host)
    decreases |ds|
  {
    if ds == [] then 0
    else if Serves(ds[0], host) then 0
    else 1 + FirstServing(ds[1..], host)
  }

  /** A matched host: the domain and, when the host names one, its subdomain. */
  datatype Site = Site(domain: Domain, sub: Option<Domain>)

  /** The domain and subdomain lookups of a request or an upgrade. */
  function Lookup(ds: seq<Domain>, host: string): (r: Option<Site>)
    ensures r.None? <==> forall j :: 0 <= j < |ds| ==> !Serves(ds[j], host)
    ensures r.Some? ==> Serves(r.value.domain, host) && r.value.domain in ds
    ensures r.Some? ==> r.value.sub == SubdomainFor(r.value.domain, host)
  {
    var k := FirstServing(ds, host);
    if k < |ds| then Some(Site(ds[k], SubdomainFor(ds[k], host))) else None
  }

  /** `subdomain?.path || domain.path`: the directory a matched host is served from. */
  function SiteRoot(s: Site): (p: string)
    ensures p == s.domain.path || (s.sub.Some? && p == s.sub.value.path)
    ensures s.sub.Some? && s.sub.value.path != "" ==> p == s.sub.value.path
    ensures !(s.sub.Some? && s.sub.value.path != "") ==> p == s.domain.path
  {
    if s.sub.Some? && s.sub.value.path != "" then s.sub.value.path else s.domain.path
  }

  /**
   * A host `x.d` for a dot-free label `x` is served by the first domain called
   * `d` that has a subdomain `x` (when no earlier domain serves it), from that
   * subdomain's directory.
   */
  lemma {:induction false} LookupSubdomain(ds: seq<Domain>, i: nat, x: string)
    requires i < |ds| && '.' !in x
    requires ds[i].subdomains.Some?
    requires FindByName(ds[i].subdomains.value, x).Some?
    requires forall j :: 0 <= j < i ==> !Serves(ds[j], x + "." + ds[i].name)
    ensures var host := x + "." + ds[i].name;
      Lookup(ds, host) == Some(Site(ds[i], FindByName(ds[i].subdomains.value, x)))
  {
    var host := x + "." + ds[i].name;
    SubdomainHost(ds[i], x);
    FirstServingAt(ds, host, i);
  }

  lemma {:induction false} SubdomainHost(d: Domain, x: string)
    requires '.' !in x && d.subdomains.Some?
    ensures SubLabel(d, x + "." + d.name) == x
    ensures EndsWith(x + "." + d.name, "." + d.name)
  {
    var suffix := "." + d.name;
    assert x + "." + d.name == x + suffix;
    ReplaceSuffixLabel(x, d.name);
    EndsWithAppended(x, suffix);
  }

  lemma {:induction false} EndsWithAppended(x: string, y: string)
    ensures EndsWith(x + y, y)
  {
    assert (x + y)[|x|..] == y;
  }

  lemma {:induction false} FirstServingAt(ds: seq<Domain>, host: string, i: nat)
    requires i < |ds| && Serves(ds[i], host)
    requires forall j :: 0 <= j < i ==> !Serves(ds[j], host)
    ensures FirstServing(ds, host) == i
    decreases i
  {
    if i > 0 {
      assert !Serves(ds[0], host);
      assert ds[1..][i - 1] == ds[i];
      FirstServingAt(ds[1..], host, i - 1);
    }
  }

  /**
   * The bare domain name is served by the first domain of that name (when no
   * earlier domain serves it), from the domain's own directory unless one of
   * its subdomains carries the domain's full name.
   */
  lemma {:induction false} LookupBare(ds: seq<Domain>, i: nat)
    requires i < |ds|
    requires forall j :: 0 <= j < i ==> !Serves(ds[j], ds[i].name)
    requires ds[i].subdomains.Some? ==>
      forall j :: 0 <= j < |ds[i].subdomains.value| ==> ds[i].subdomains.value[j].name != ds[i].name
    ensures Lookup(ds, ds[i].name) == Some(Site(ds[i], None))
    ensures SiteRoot(Lookup(ds, ds[i].name).value) == ds[i].path
  {
    var host := ds[i].name;
    assert IndexOf(host, "." + host) == -1 by {
      forall k ensures !OccursAt(host, "." + host, k) {
      }
    }
    assert SubLabel(ds[i], host) == host;
    FirstServingAt(ds, host, i);
  }

  // ---------------------------------------------------------------------------
  // TLS server-name selection

  /** The outcome of the domain search of the TLS handshake. */
  datatype SniScan = SniFault | SniMiss | SniHit(domain: Domain)

  /**
   * The search of lines 74-81. It reads `e.subdomains.find` without `?.`, so
   * reaching a domain without a subdomain list whose name is a suffix of the
   * host throws.
   */
  function SniFind(ds: seq<Domain>, host: string): SniScan
    decreases |ds|
  {
    if ds == [] then SniMiss
    else
      var e := ds[0];
      if e.name == host then SniHit(e)
      else if EndsWith(host, "." + e.name) then
        if e.subdomains.None? then SniFault
        else if FindByName(e.subdomains.value, SubLabel(e, host)).Some? then SniHit(e)
        else SniFind(ds[1..], host)
      else SniFind(ds[1..], host)
  }

  /** The PEM file paths of a secure context; `None` leaves the option unset. */
  datatype TlsFiles = TlsFiles(key: Option<string>, cert: Option<string>, ca: Option<string>)

  datatype SniResult = SniThrows | SniUnknownHost | SniContext(files: TlsFiles)

  /** JavaScript truthiness of an optional string. */
  predicate Truthy(o: Option<string>) {
    o.Some? && o.value != ""
  }

  /** `a || b || c`, kept only when one of them is truthy. */
  function FirstTruthy(a: Option<string>, b: Option<string>, c: Option<string>): Option<string> {
    if Truthy(a) then a else if Truthy(b) then b else if Truthy(c) then c else None
  }

  /** Each file from the subdomain, else the domain, else the server configuration. */
  function Fallback(sub: TlsFiles, domain: Domain, config: TlsFiles): TlsFiles {
    TlsFiles(
      FirstTruthy(sub.key, domain.key, config.key),
      FirstTruthy(sub.cert, domain.cert, config.cert),
      FirstTruthy(sub.ca, domain.ca, config.ca))
  }

  function FilesOf(d: Domain): TlsFiles {
    TlsFiles(d.key, d.cert, d.ca)
  }

  /**
   * `SNICallback` as written (lines 67-98): it throws on an insecure server,
   * when the search faults, and when the matched domain has no matching
   * subdomain, because line 90 reads `subdomain.key` without `?.`.
   */
  function SniCallback(secure: bool, config: TlsFiles, ds: seq<Domain>, host: string): (r: SniResult)
    ensures !secure ==> r == SniThrows
    ensures r.SniContext? ==> SniFind(ds, host).SniHit? && SubdomainFor(SniFind(ds, host).domain, host).Some?
    ensures secure && SniFind(ds, host).SniFault? ==> r == SniThrows
    ensures secure && SniFind(ds, host).SniMiss? ==> r == SniUnknownHost
    ensures secure && SniFind(ds, host).SniHit? ==>
      var d := SniFind(ds, host).domain;
      r == (if SubdomainFor(d, host).Some? then SniContext(Fallback(FilesOf(SubdomainFor(d, host).value), d, config)) else SniThrows)
  {
    if !secure then SniThrows
    else match SniFind(ds, host)
      case SniFault => SniThrows
      case SniMiss => SniUnknownHost
      case SniHit(d) =>
        var sub := SubdomainFor(d, host);
        if sub.None? then SniThrows
        else SniContext(Fallback(FilesOf(sub.value), d, config))
  }

  /**
   * The selection with `?.` on both reads, as the request path does: the host is
   * matched by `Lookup`, and a missing subdomain contributes nothing.
   */
  function SniCallbackGuarded(secure: bool, config: TlsFiles, ds: seq<Domain>, host: string): (r: SniResult)
    ensures !secure ==> r == SniThrows
    ensures secure ==> (r == SniUnknownHost <==> Lookup(ds, host).None?)
    ensures secure && Lookup(ds, host).Some? ==> r.SniContext?
  {
    if !secure then SniThrows
    else match Lookup(ds, host)
      case None => SniUnknownHost
      case Some(site) =>
        var sub := if site.sub.Some? then FilesOf(site.sub.value) else TlsFiles(None, None, None);
        SniContext(Fallback(sub, site.domain, config))
  }

  /**
   * When the search does not fault it finds the domain the request path finds:
   * the two searches differ only in the `?.`.
   */
  lemma {:induction false} SniFindAgrees(ds: seq<Domain>, host: string)
    requires !SniFind(ds, host).SniFault?
    ensures SniFind(ds, host).SniMiss? <==> Lookup(ds, host).None?
    ensures SniFind(ds, host).SniHit? ==> Lookup(ds, host).value.domain == SniFind(ds, host).domain
    decreases |ds|
  {
    if ds != [] && !Serves(ds[0], host) {
      SniFindAgrees(ds[1..], host);
      assert FirstServing(ds, host) == 1 + FirstServing(ds[1..], host);
      if FirstServing(ds[1..], host) < |ds[1..]| {
        assert ds[1..][FirstServing(ds[1..], host)] == ds[FirstServing(ds, host)];
      }
    }
  }

  /**
   * What `this` is when the TLS layer calls the callback: the server when the
   * method is bound to it, the TLS socket when the method is passed as it stands.
   */
  datatype Receiver = BoundServer | TlsSocket

  /**
   * `SNICallback` as the TLS layer calls it. The socket has no `config`, so
   * reading `secure` from it throws before anything else happens.
   */
  function SniCallbackOn(receiver: Receiver, secure: bool, config: TlsFiles, ds: seq<Domain>, host: string): (r: SniResult)
    ensures receiver == TlsSocket ==> r == SniThrows
    ensures receiver == BoundServer ==> r == SniCallback(secure, config, ds, host)
  {
    if receiver == TlsSocket then SniThrows else SniCallback(secure, config, ds, host)
  }

  /**
   * Passed unbound, the callback fails every handshake, even on a secure
   * server for a host a domain serves, where the bound and guarded callback
   * gives a context.
   */
  lemma {:induction false} SniUnboundThrows(config: TlsFiles, ds: seq<Domain>, host: string)
    requires Lookup(ds, host).Some?
    ensures SniCallbackOn(TlsSocket, true, config, ds, host) == SniThrows
    ensures SniCallbackGuarded(true, config, ds, host).SniContext?
  {
  }

  /**
   * Where the handshake as written gives a context, the request path finds a
   * site with a subdomain, and the guarded handshake gives the same context.
   */
  lemma {:induction false} SniContextAgrees(config: TlsFiles, ds: seq<Domain>, host: string)
    requires SniCallback(true, config, ds, host).SniContext?
    ensures Lookup(ds, host).Some? && Lookup(ds, host).value.sub.Some?
    ensures SniCallback(true, config, ds, host) == SniCallbackGuarded(true, config, ds, host)
  {
    SniFindAgrees(ds, host);
  }

  /** With every domain holding a subdomain list the search cannot fault. */
  lemma {:induction false} SniFindTotal(ds: seq<Domain>, host: string)
    requires forall j :: 0 <= j < |ds| ==> ds[j].subdomains.Some?
    ensures !SniFind(ds, host).SniFault?
    decreases |ds|
  {
    if ds != [] {
      SniFindTotal(ds[1..], host);
    }
  }

  /**
   * The guarded selection takes every file from the subdomain first, then the
   * domain, then the configuration, skipping absent and empty values.
   */
  lemma {:induction false} SniGuardedFallback(config: TlsFiles, ds: seq<Domain>, host: string)
    requires Lookup(ds, host).Some?
    ensures var site := Lookup(ds, host).value;
      var r := SniCallbackGuarded(true, config, ds, host);
      r.SniContext?
      && (site.sub.Some? && Truthy(site.sub.value.key) ==> r.files.key == site.sub.value.key)
      && ((site.sub.None? || !Truthy(site.sub.value.key)) && Truthy(site.domain.key) ==> r.files.key == site.domain.key)
      && ((site.sub.None? || !Truthy(site.sub.value.key)) && !Truthy(site.domain.key) ==>
            r.files.key == (if Truthy(config.key) then config.key else None))
      && (site.sub.Some? && Truthy(site.sub.value.cert) ==> r.files.cert == site.sub.value.cert)
      && ((site.sub.None? || !Truthy(site.sub.value.cert)) && Truthy(site.domain.cert) ==> r.files.cert == site.domain.cert)
      && ((site.sub.None? || !Truthy(site.sub.value.cert)) && !Truthy(site.domain.cert) ==>
            r.files.cert == (if Truthy(config.cert) then config.cert else None))
      && (site.sub.Some? && Truthy(site.sub.value.ca) ==> r.files.ca == site.sub.value.ca)
      && ((site.sub.None? || !Truthy(site.sub.value.ca)) && Truthy(site.domain.ca) ==> r.files.ca == site.domain.ca)
      && ((site.sub.None? || !Truthy(site.sub.value.ca)) && !Truthy(site.domain.ca) ==>
            r.files.ca == (if Truthy(config.ca) then config.ca else None))
  {
  }

  /**
   * As written, a handshake naming a bare domain throws: the domain is found,
   * but no subdomain is, and line 90 reads a property of `undefined`. The
   * guarded selection answers with the domain's own files.
   */
  lemma {:induction false} SniBareDomainThrows(config: TlsFiles, d: Domain)
    requires d.subdomains.Some? ==>
      forall j :: 0 <= j < |d.subdomains.value| ==> d.subdomains.value[j].name != d.name
    ensures SniCallback(true, config, [d], d.name) == SniThrows
    ensures SniCallbackGuarded(true, config, [d], d.name)
      == SniContext(Fallback(TlsFiles(None, None, None), d, config))
  {
    LookupBare([d], 0);
  }
}
