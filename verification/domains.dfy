/**
 * The start-up index of virtual hosts.
 *
 * Every directory under the server's root directory is a domain; every
 * directory inside a domain that is not itself a document site is a subdomain,
 * one level deep. A subdomain directory named `~` is not a subdomain: it stands
 * for the bare domain, whose path and TLS files it takes over. When the root
 * directory itself is a document site there are no domains at all.
 */
module Domains {
  import opened Wrappers
  import opened Paths
  import opened Files

  /**
   * A virtual host. `key`, `cert` and `ca` are paths of PEM files; `None` is an
   * absent property. `subdomains` is absent on subdomains and on domains that
   * are document sites.
   */
  datatype Domain = Domain(
    name: string,
    path: string,
    key: Option<string>,
    cert: Option<string>,
    ca: Option<string>,
    subdomains: Option<seq<Domain>>)

  /** `join(parent, dir.name, file)` when that directory holds an entry called `file`. */
  function Pem(parent: string, dir: Entry, file: string): (r: Option<string>)
    requires dir.Dir?
    ensures r.Some? <==> HasEntry(dir.children, file)
    ensures r.Some? ==> r.value == Join3(parent, dir.name, file)
  {
    if HasEntry(dir.children, file) then Some(Join3(parent, dir.name, file)) else None
  }

  /** The record built for a directory found under `parent`. */
  function Metadata(parent: string, dir: Entry): (m: Domain)
    requires dir.Dir?
    ensures m.name == dir.name && m.path == Join(parent, dir.name)
    ensures m.subdomains.None?
  {
    Domain(dir.name, Join(parent, dir.name),
      Pem(parent, dir, "key.pem"), Pem(parent, dir, "cert.pem"), Pem(parent, dir, "ca.pem"),
      None)
  }

  predicate NoTilde(subs: seq<Domain>) {
    forall i :: 0 <= i < |subs| ==> subs[i].name != "~"
  }

  /** No subdomain has subdomains of its own. */
  predicate Flat(subs: seq<Domain>) {
    forall i :: 0 <= i < |subs| ==> subs[i].subdomains.None?
  }

  predicate IsTildeDir(e: Entry) {
    e.Dir? && e.name == "~"
  }

  /** The directories of a listing, in listing order. */
  function Dirs(entries: seq<Entry>): (r: seq<Entry>)
    ensures forall i :: 0 <= i < |r| ==> r[i].Dir?
    ensures |r| <= |entries|
    ensures forall e :: e in r <==> e in entries && e.Dir?
  {
    if entries == [] then []
    else (if entries[0].Dir? then [entries[0]] else []) + Dirs(entries[1..])
  }

  /** Filtering keeps the listing order: the directories of two listings in a row. */
  lemma {:induction false} DirsAppend(a: seq<Entry>, b: seq<Entry>)
    ensures Dirs(a + b) == Dirs(a) + Dirs(b)
    decreases |a|
  {
    if a == [] {
      assert a + b == b;
    } else {
      assert (a + b)[1..] == a[1..] + b;
      DirsAppend(a[1..], b);
    }
  }

  /**
   * The subdomains a domain listing declares, as a filter: one record per
   * directory other than `~`, in listing order.
   */
  function Declared(path: string, entries: seq<Entry>): seq<Domain> {
    if entries == [] then []
    else
      var e := entries[0];
      (if e.Dir? && e.name != "~" then [Metadata(path, e)] else []) + Declared(path, entries[1..])
  }

  /**
   * The subdomain loop of a domain that is not a document site, over the
   * entries still to visit. `path` is the domain's directory as it was before
   * any `~` was met.
   */
  function AddSubdomains(d: Domain, path: string, entries: seq<Entry>): (r: Domain)
    requires d.subdomains.Some?
    ensures r.name == d.name && r.subdomains.Some?
    ensures NoTilde(d.subdomains.value) ==> NoTilde(r.subdomains.value)
    ensures Flat(d.subdomains.value) ==> Flat(r.subdomains.value)
    decreases |entries|
  {
    if entries == [] then d
    else
      var e := entries[0];
      if !e.Dir? then AddSubdomains(d, path, entries[1..])
      else
        var m := Metadata(path, e);
        if e.name == "~" then
          AddSubdomains(d.(path := m.path, key := m.key, cert := m.cert, ca := m.ca), path, entries[1..])
        else
          AddSubdomains(d.(subdomains := Some(d.subdomains.value + [m])), path, entries[1..])
  }

  /** The index of one domain directory whose listing is `entries`. */
  function IndexDomain(meta: Domain, entries: seq<Entry>): (d: Domain)
    requires meta.subdomains.None?
    ensures d.name == meta.name
    ensures IsDocumentListing(entries) ==> d == meta
    ensures !IsDocumentListing(entries) ==>
      d.subdomains.Some? && NoTilde(d.subdomains.value) && Flat(d.subdomains.value)
  {
    if IsDocumentListing(entries) then meta
    else AddSubdomains(meta.(subdomains := Some([])), meta.path, entries)
  }

  /** The domains of a root directory that is not a document site. */
  function IndexDomains(rootDir: string, entries: seq<Entry>): (ds: seq<Domain>)
    ensures |ds| == |Dirs(entries)|
    ensures forall i :: 0 <= i < |ds| ==> ds[i].name == Dirs(entries)[i].name
    ensures forall i :: 0 <= i < |ds| ==>
      ds[i].subdomains.Some? ==> NoTilde(ds[i].subdomains.value) && Flat(ds[i].subdomains.value)
    ensures forall i :: 0 <= i < |ds| ==>
      ds[i] == IndexDomain(Metadata(rootDir, Dirs(entries)[i]), Dirs(entries)[i].children)
  {
    if entries == [] then []
    else
      var e := entries[0];
      (if e.Dir? then [IndexDomain(Metadata(rootDir, e), e.children)] else [])
        + IndexDomains(rootDir, entries[1..])
  }

  /** The domain list built at start-up from the root directory's listing. */
  function IndexRoot(rootDir: string, entries: seq<Entry>): (ds: seq<Domain>)
    ensures IsDocumentListing(entries) ==> ds == []
    ensures !IsDocumentListing(entries) ==> |ds| == |Dirs(entries)| && forall i :: 0 <= i < |ds| ==>
      ds[i] == IndexDomain(Metadata(rootDir, Dirs(entries)[i]), Dirs(entries)[i].children)
  {
    if IsDocumentListing(entries) then [] else IndexDomains(rootDir, entries)
  }

  // ---------------------------------------------------------------------------
  // What the subdomain loop computes

  /** The loop appends exactly the declared subdomains, in listing order. */
  lemma {:induction false} AddSubdomainsDeclared(d: Domain, path: string, entries: seq<Entry>)
    requires d.subdomains.Some?
    ensures AddSubdomains(d, path, entries).subdomains == Some(d.subdomains.value + Declared(path, entries))
    decreases |entries|
  {
    if entries != [] {
      var e := entries[0];
      if !e.Dir? || e.name == "~" {
        assert Declared(path, entries) == [] + Declared(path, entries[1..]);
        assert [] + Declared(path, entries[1..]) == Declared(path, entries[1..]);
      }
      if !e.Dir? {
        AddSubdomainsDeclared(d, path, entries[1..]);
      } else if e.name == "~" {
        var m := Metadata(path, e);
        AddSubdomainsDeclared(d.(path := m.path, key := m.key, cert := m.cert, ca := m.ca), path, entries[1..]);
      } else {
        var m := Metadata(path, e);
        AddSubdomainsDeclared(d.(subdomains := Some(d.subdomains.value + [m])), path, entries[1..]);
        assert d.subdomains.value + [m] + Declared(path, entries[1..])
            == d.subdomains.value + ([m] + Declared(path, entries[1..]));
      }
    } else {
      assert d.subdomains.value + [] == d.subdomains.value;
    }
  }

  /** Without a `~` directory the domain keeps its own path and TLS files. */
  lemma {:induction false} AddSubdomainsKeeps(d: Domain, path: string, entries: seq<Entry>)
    requires d.subdomains.Some?
    requires forall j :: 0 <= j < |entries| ==> !IsTildeDir(entries[j])
    ensures var r := AddSubdomains(d, path, entries);
      r.path == d.path && r.key == d.key && r.cert == d.cert && r.ca == d.ca
    decreases |entries|
  {
    if entries != [] {
      assert !IsTildeDir(entries[0]);
      var e := entries[0];
      var next := if !e.Dir? then d else d.(subdomains := Some(d.subdomains.value + [Metadata(path, e)]));
      assert AddSubdomains(d, path, entries) == AddSubdomains(next, path, entries[1..]);
      AddSubdomainsKeeps(next, path, entries[1..]);
    }
  }

  /** The one `~` directory hands its path and TLS files to the domain. */
  lemma {:induction false} AddSubdomainsHoists(d: Domain, path: string, entries: seq<Entry>, i: nat)
    requires d.subdomains.Some?
    requires i < |entries| && IsTildeDir(entries[i])
    requires forall j :: 0 <= j < |entries| && j != i ==> !IsTildeDir(entries[j])
    ensures var r := AddSubdomains(d, path, entries);
      r.path == Join(path, "~")
      && r.key == Pem(path, entries[i], "key.pem")
      && r.cert == Pem(path, entries[i], "cert.pem")
      && r.ca == Pem(path, entries[i], "ca.pem")
    decreases |entries|
  {
    var e := entries[0];
    if i == 0 {
      var m := Metadata(path, e);
      AddSubdomainsKeeps(d.(path := m.path, key := m.key, cert := m.cert, ca := m.ca), path, entries[1..]);
    } else {
      assert !IsTildeDir(e);
      var next := if !e.Dir? then d else d.(subdomains := Some(d.subdomains.value + [Metadata(path, e)]));
      assert AddSubdomains(d, path, entries) == AddSubdomains(next, path, entries[1..]);
      AddSubdomainsHoists(next, path, entries[1..], i - 1);
    }
  }

  /**
   * A domain directory that is not a document site: its subdomains are its
   * directories other than `~`, each at `join(domainPath, name)`; a single `~`
   * directory takes the domain's place (absent PEM files become absent
   * properties); without one the domain keeps its own path and files.
   */
  lemma {:induction false} IndexDomainSubdomains(meta: Domain, entries: seq<Entry>)
    requires meta.subdomains.None? && !IsDocumentListing(entries)
    ensures IndexDomain(meta, entries).subdomains == Some(Declared(meta.path, entries))
    ensures (forall j :: 0 <= j < |entries| ==> !IsTildeDir(entries[j])) ==>
      var d := IndexDomain(meta, entries);
      d.path == meta.path && d.key == meta.key && d.cert == meta.cert && d.ca == meta.ca
  {
    AddSubdomainsDeclared(meta.(subdomains := Some([])), meta.path, entries);
    assert [] + Declared(meta.path, entries) == Declared(meta.path, entries);
    if forall j :: 0 <= j < |entries| ==> !IsTildeDir(entries[j]) {
      AddSubdomainsKeeps(meta.(subdomains := Some([])), meta.path, entries);
    }
  }

  lemma {:induction false} IndexDomainTilde(meta: Domain, entries: seq<Entry>, i: nat)
    requires meta.subdomains.None? && !IsDocumentListing(entries)
    requires i < |entries| && IsTildeDir(entries[i])
    requires forall j :: 0 <= j < |entries| && j != i ==> !IsTildeDir(entries[j])
    ensures var d := IndexDomain(meta, entries);
      d.path == Join(meta.path, "~")
      && d.key == Pem(meta.path, entries[i], "key.pem")
      && d.cert == Pem(meta.path, entries[i], "cert.pem")
      && d.ca == Pem(meta.path, entries[i], "ca.pem")
  {
    AddSubdomainsHoists(meta.(subdomains := Some([])), meta.path, entries, i);
  }

  /** Every declared subdomain is a named directory of the listing, at `join(path, name)`. */
  lemma {:induction false} DeclaredShape(path: string, entries: seq<Entry>)
    ensures NoTilde(Declared(path, entries)) && Flat(Declared(path, entries))
    ensures forall k :: 0 <= k < |Declared(path, entries)| ==>
      Declared(path, entries)[k].path == Join(path, Declared(path, entries)[k].name)
      && HasEntry(entries, Declared(path, entries)[k].name)
    decreases |entries|
  {
    if entries != [] {
      DeclaredShape(path, entries[1..]);
      var e := entries[0];
      var head := if e.Dir? && e.name != "~" then [Metadata(path, e)] else [];
      var rest := Declared(path, entries[1..]);
      forall k | 0 <= k < |rest| ensures HasEntry(entries, rest[k].name) {
        var j :| 0 <= j < |entries[1..]| && entries[1..][j].name == rest[k].name;
        assert entries[j + 1].name == rest[k].name;
      }
      assert head != [] ==> entries[0].name == head[0].name;
    }
  }
}
