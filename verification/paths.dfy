/**
 * Node's POSIX `path.normalize` and `path.join`, as plain string functions.
 *
 * A path is split at '/', and its segments are folded onto a stack: empty and
 * "." segments vanish, ".." pops the last name (or, for a relative path with
 * nothing left to pop, is kept), and any other segment is pushed. An absolute
 * path is rendered back as "/" followed by the stack, keeping a trailing '/'
 * when the input had one. The server's containment checks are string-prefix
 * tests on these rendered strings, so the model keeps them as strings.
 */
module Paths {
  import opened Text

  /** A segment that normalisation keeps as it is: a plain file or directory name. */
  predicate IsName(seg: string) {
    seg != "" && seg != "." && seg != ".." && '/' !in seg
  }

  predicate AllNames(st: seq<string>) {
    forall i :: 0 <= i < |st| ==> IsName(st[i])
  }

  predicate NoSlash(segs: seq<string>) {
    forall i :: 0 <= i < |segs| ==> '/' !in segs[i]
  }

  /** One segment of the normalisation fold. */
  function Step(st: seq<string>, seg: string, aboveRoot: bool): seq<string> {
    if seg == "" || seg == "." then st
    else if seg == ".." then
      if |st| > 0 && st[|st| - 1] != ".." then st[..|st| - 1]
      else if aboveRoot then st + [".."]
      else st
    else st + [seg]
  }

  /** The normalisation fold over `segs`, left to right, starting from `st`. */
  function Resolve(st: seq<string>, segs: seq<string>, aboveRoot: bool): seq<string>
    decreases |segs|
  {
    if segs == [] then st else Resolve(Step(st, segs[0], aboveRoot), segs[1..], aboveRoot)
  }

  /** `path.normalize(s)`. */
  function Normalize(s: string): string {
    if s == "" then "."
    else
      var absolute := s[0] == '/';
      var trailing := s[|s| - 1] == '/';
      var body := JoinWith(Resolve([], Split(s, '/'), !absolute), '/');
      if body == "" then (if absolute then "/" else if trailing then "./" else ".")
      else (if absolute then "/" else "") + body + (if trailing then "/" else "")
  }

  /** The arguments of `path.join` glued with '/', empty arguments skipped. */
  function Glue(parts: seq<string>): string
    decreases |parts|
  {
    if |parts| == 0 then ""
    else
      var g := Glue(parts[..|parts| - 1]);
      var p := parts[|parts| - 1];
      if p == "" then g else if g == "" then p else g + "/" + p
  }

  /** `path.join(...parts)`; with nothing to glue, Normalize("") is ".". */
  function JoinAll(parts: seq<string>): string {
    Normalize(Glue(parts))
  }

  function Join(a: string, b: string): string {
    JoinAll([a, b])
  }

  function Join3(a: string, b: string, c: string): string {
    JoinAll([a, b, c])
  }

  /** The absolute path whose segments are `st`, with an optional trailing '/'. */
  function Render(st: seq<string>, trailing: bool): string {
    if st == [] then "/" else "/" + JoinWith(st, '/') + (if trailing then "/" else "")
  }

  /** The segment stack of an absolute path. */
  function Stack(p: string): seq<string> {
    Resolve([], Split(p, '/'), false)
  }

  /** An absolute, normalised path without a trailing '/': how site roots look. */
  predicate Canonical(p: string) {
    p != "" && p[0] == '/' && p[|p| - 1] != '/' && Normalize(p) == p
  }

  /** `p` is `root` itself or lies below it, segment-wise. */
  predicate Within(p: string, root: string) {
    p == root || StartsWith(p, root + "/")
  }

  // ---------------------------------------------------------------------------
  // The fold

  lemma {:induction false} ResolveAppend(st: seq<string>, xs: seq<string>, ys: seq<string>, above: bool)
    ensures Resolve(st, xs + ys, above) == Resolve(Resolve(st, xs, above), ys, above)
    decreases |xs|
  {
    if xs != [] {
      assert (xs + ys)[0] == xs[0];
      assert (xs + ys)[1..] == xs[1..] + ys;
      ResolveAppend(Step(st, xs[0], above), xs[1..], ys, above);
    } else {
      assert xs + ys == ys;
    }
  }

  /** Plain names are pushed as they are. */
  lemma {:induction false} ResolveNames(st: seq<string>, xs: seq<string>, above: bool)
    requires AllNames(xs)
    ensures Resolve(st, xs, above) == st + xs
    decreases |xs|
  {
    if xs != [] {
      assert IsName(xs[0]);
      assert AllNames(xs[1..]) by {
        forall i | 0 <= i < |xs[1..]| ensures IsName(xs[1..][i]) {
          assert xs[1..][i] == xs[i + 1];
        }
      }
      ResolveNames(st + [xs[0]], xs[1..], above);
      assert st + [xs[0]] + xs[1..] == st + xs;
    }
  }

  /** Folding an absolute path never leaves anything but plain names on the stack. */
  lemma {:induction false} ResolveKeepsNames(st: seq<string>, segs: seq<string>)
    requires AllNames(st) && NoSlash(segs)
    ensures AllNames(Resolve(st, segs, false))
    decreases |segs|
  {
    if segs != [] {
      var next := Step(st, segs[0], false);
      assert '/' !in segs[0];
      assert AllNames(next) by {
        if segs[0] == ".." && |st| > 0 {
          forall i | 0 <= i < |next| ensures IsName(next[i]) {
            assert next[i] == st[i];
          }
        }
      }
      assert NoSlash(segs[1..]) by {
        forall i | 0 <= i < |segs[1..]| ensures '/' !in segs[1..][i] {
          assert segs[1..][i] == segs[i + 1];
        }
      }
      ResolveKeepsNames(next, segs[1..]);
    }
  }

  lemma {:induction false} JoinWithNonEmpty(st: seq<string>)
    requires AllNames(st) && st != []
    ensures JoinWith(st, '/') != ""
  {
    assert IsName(st[0]);
    if |st| > 1 {
      assert JoinWith(st, '/') == st[0] + "/" + JoinWith(st[1..], '/');
    }
  }

  /** A join of plain names ends with the last name, so never with '/'. */
  lemma {:induction false} JoinWithLast(st: seq<string>)
    requires AllNames(st) && st != []
    ensures var j := JoinWith(st, '/'); j != "" && j[|j| - 1] != '/'
  {
    var last := st[|st| - 1];
    assert IsName(last);
    if |st| > 1 {
      JoinWithAppend(st[..|st| - 1], [last], '/');
      assert st[..|st| - 1] + [last] == st;
    }
    assert last[|last| - 1] in last;
  }

  /** `normalize` of an absolute path renders its segment stack. */
  lemma {:induction false} NormalizeAbsolute(s: string)
    requires s != "" && s[0] == '/'
    ensures AllNames(Stack(s))
    ensures Normalize(s) == Render(Stack(s), s[|s| - 1] == '/')
  {
    ResolveKeepsNames([], Split(s, '/'));
    if Stack(s) != [] {
      JoinWithNonEmpty(Stack(s));
    }
  }

  lemma {:induction false} SplitRender(st: seq<string>, trailing: bool)
    requires AllNames(st)
    ensures Split(Render(st, trailing), '/') == [""] + st + (if trailing || st == [] then [""] else [])
  {
    if st == [] {
      assert Render(st, trailing) == "" + ['/'] + "";
      SplitAround("", "", '/');
    } else {
      var j := JoinWith(st, '/');
      SplitJoin(st, '/');
      assert "/" + j == "" + ['/'] + j;
      SplitAround("", j, '/');
      if trailing {
        assert Render(st, trailing) == ("/" + j) + ['/'] + "";
        SplitAround("/" + j, "", '/');
      } else {
        assert Render(st, trailing) == "/" + j;
      }
    }
  }

  /** The stack of a rendered path is the stack it was rendered from. */
  lemma {:induction false} StackRender(st: seq<string>, trailing: bool)
    requires AllNames(st)
    ensures Stack(Render(st, trailing)) == st
  {
    SplitRender(st, trailing);
    var tail: seq<string> := if trailing || st == [] then [""] else [];
    assert [""] + st + tail == [""] + (st + tail);
    ResolveAppend([], [""], st + tail, false);
    ResolveAppend([], st, tail, false);
    ResolveNames([], st, false);
    assert [] + st == st;
  }

  /** Normalisation is idempotent on absolute paths. */
  lemma {:induction false} NormalizeIdempotent(s: string)
    requires s != "" && s[0] == '/'
    ensures Normalize(Normalize(s)) == Normalize(s)
  {
    NormalizeAbsolute(s);
    var st := Stack(s);
    var t := s[|s| - 1] == '/';
    var r := Normalize(s);
    assert r == Render(st, t);
    StackRender(st, t);
    assert r[0] == '/';
    NormalizeAbsolute(r);
    if st != [] && !t {
      JoinWithLast(st);
    }
  }

  lemma {:induction false} GlueOne(a: string)
    ensures Glue([a]) == a
  {
    assert [a][..0] == [];
  }

  lemma {:induction false} GlueTwo(a: string, b: string)
    requires a != "" && b != ""
    ensures Glue([a, b]) == a + "/" + b
  {
    assert [a][..0] == [];
    assert Glue([a]) == a;
    assert [a, b][..1] == [a];
  }

  /** `path.join(a, x)` for an absolute `a`: the segments of `x` folded onto those of `a`. */
  lemma {:induction false} JoinAbsolute(a: string, x: string)
    requires a != "" && a[0] == '/' && x != ""
    ensures AllNames(Resolve(Stack(a), Split(x, '/'), false))
    ensures Join(a, x) == Render(Resolve(Stack(a), Split(x, '/'), false), x[|x| - 1] == '/')
  {
    GlueTwo(a, x);
    var s := a + "/" + x;
    assert s == a + ['/'] + x;
    SplitAround(a, x, '/');
    ResolveAppend([], Split(a, '/'), Split(x, '/'), false);
    NormalizeAbsolute(s);
    assert s[|s| - 1] == x[|x| - 1];
  }

  /** Joining a rendered path with one more segment string. */
  lemma {:induction false} JoinRendered(st: seq<string>, trailing: bool, x: string)
    requires AllNames(st) && x != ""
    ensures AllNames(Resolve(st, Split(x, '/'), false))
    ensures Join(Render(st, trailing), x) == Render(Resolve(st, Split(x, '/'), false), x[|x| - 1] == '/')
  {
    StackRender(st, trailing);
    JoinAbsolute(Render(st, trailing), x);
  }

  /** Joining a rendered path with a plain name appends that name. */
  lemma {:induction false} JoinName(st: seq<string>, trailing: bool, n: string)
    requires AllNames(st) && IsName(n)
    ensures AllNames(st + [n])
    ensures Join(Render(st, trailing), n) == Render(st + [n], false)
  {
    SplitWithout(n, '/');
    JoinRendered(st, trailing, n);
    assert Resolve(st, [n], false) == Step(st, n, false);
  }

  /** Joining with "." changes nothing but a trailing '/'. */
  lemma {:induction false} JoinDot(st: seq<string>, trailing: bool)
    requires AllNames(st)
    ensures Join(Render(st, trailing), ".") == Render(st, false)
  {
    SplitWithout(".", '/');
    JoinRendered(st, trailing, ".");
  }

  lemma {:induction false} RenderSnoc(st: seq<string>, n: string)
    requires st != []
    ensures Render(st + [n], false) == Render(st, false) + "/" + n
  {
    JoinWithAppend(st, [n], '/');
  }

  lemma {:induction false} RenderDropTrailing(st: seq<string>)
    requires st != []
    ensures Render(st, true) == Render(st, false) + "/"
  {
  }

  /** A canonical path is the rendering of its own stack, which is non-empty. */
  lemma {:induction false} CanonicalForm(p: string)
    requires Canonical(p)
    ensures AllNames(Stack(p)) && Stack(p) != []
    ensures p == Render(Stack(p), false)
  {
    NormalizeAbsolute(p);
  }

  /** A rendering of a longer stack lies within the rendering of its prefix. */
  lemma {:induction false} RenderWithin(st: seq<string>, more: seq<string>, trailing: bool)
    requires st != []
    ensures Within(Render(st + more, trailing), Render(st, false))
  {
    var root := Render(st, false);
    if more == [] {
      assert st + more == st;
    } else {
      JoinWithAppend(st, more, '/');
      var tail := JoinWith(more, '/') + (if trailing then "/" else "");
      assert Render(st + more, trailing) == root + "/" + tail;
    }
  }

  /** Dropping a trailing '/' keeps a path within a root that has none. */
  lemma {:induction false} WithinDropTrailing(base: string, root: string)
    requires root != "" && root[|root| - 1] != '/'
    requires Within(base + "/", root)
    ensures Within(base, root)
  {
    var full := base + "/";
    assert full[|full| - 1] == '/';
    assert full != root;
    if |base| == |root| {
      assert base == full[..|root|];
    } else {
      assert base[..|root| + 1] == full[..|root| + 1];
    }
  }

  /** A name appended below a path within `root` is strictly below `root`. */
  lemma {:induction false} WithinExtend(base: string, root: string, n: string)
    requires Within(base, root)
    ensures StartsWith(base + "/" + n, root + "/")
  {
    if base == root {
      assert (base + "/" + n)[..|root| + 1] == root + "/";
    } else {
      assert (base + "/" + n)[..|root| + 1] == base[..|root| + 1];
    }
  }

  /** Appending a plain name keeps a path within the same root. */
  lemma {:induction false} WithinJoinName(st: seq<string>, trailing: bool, n: string, root: string)
    requires AllNames(st) && IsName(n) && st != []
    requires root != "" && root[|root| - 1] != '/'
    requires Within(Render(st, trailing), root)
    ensures Within(Join(Render(st, trailing), n), root)
  {
    JoinName(st, trailing, n);
    RenderSnoc(st, n);
    var base := Render(st, false);
    if trailing {
      RenderDropTrailing(st);
      WithinDropTrailing(base, root);
    }
    WithinExtend(base, root, n);
  }

  /** A non-empty stack of names renders as a canonical path. */
  lemma {:induction false} RenderCanonical(st: seq<string>)
    requires AllNames(st) && st != []
    ensures Canonical(Render(st, false))
  {
    var p := Render(st, false);
    JoinWithLast(st);
    assert p[|p| - 1] == JoinWith(st, '/')[|JoinWith(st, '/')| - 1];
    NormalizeAbsolute(p);
    StackRender(st, false);
  }

  /** A plain name joined to a path in normal form is appended, and the result is in normal form. */
  lemma {:induction false} JoinChild(p: string, n: string)
    requires Canonical(p) && IsName(n)
    ensures Canonical(Join(p, n)) && Join(p, n) == p + "/" + n
  {
    CanonicalForm(p);
    JoinName(Stack(p), false, n);
    RenderCanonical(Stack(p) + [n]);
    RenderSnoc(Stack(p), n);
  }

  /** Joining `/n` for a plain name `n` onto a canonical path appends `/n`, as joining `n` does. */
  lemma {:induction false} JoinRootedName(p: string, n: string)
    requires Canonical(p) && IsName(n)
    ensures Join(p, "/" + n) == p + "/" + n
  {
    CanonicalForm(p);
    var x := "/" + n;
    JoinAbsolute(p, x);
    assert x == ['/'] + n;
    SplitCons('/', n, '/');
    SplitWithout(n, '/');
    assert Split(x, '/') == ["", n];
    assert ["", n][1..] == [n] && [n][1..] == [];
    assert Resolve(Stack(p), ["", n], false) == Resolve(Stack(p), [n], false);
    assert Resolve(Stack(p), [n], false) == Resolve(Stack(p) + [n], [], false);
    RenderSnoc(Stack(p), n);
  }

  /** `path.join(a, b, c)` is `path.join(path.join(a, b), c)` for an absolute `a`. */
  lemma {:induction false} Join3Nested(a: string, b: string, c: string)
    requires a != "" && a[0] == '/' && b != "" && c != ""
    ensures Join3(a, b, c) == Join(Join(a, b), c)
  {
    GlueTwo(a, b);
    assert [a, b, c][..2] == [a, b];
    var s := a + "/" + b + "/" + c;
    assert Glue([a, b, c]) == s;
    assert s == (a + ['/'] + b) + ['/'] + c;
    SplitAround(a + ['/'] + b, c, '/');
    SplitAround(a, b, '/');
    ResolveAppend([], Split(a, '/') + Split(b, '/'), Split(c, '/'), false);
    ResolveAppend([], Split(a, '/'), Split(b, '/'), false);
    NormalizeAbsolute(s);
    assert s[|s| - 1] == c[|c| - 1];
    JoinAbsolute(a, b);
    JoinRendered(Resolve(Stack(a), Split(b, '/'), false), b[|b| - 1] == '/', c);
  }

  // ---------------------------------------------------------------------------
  // extname

  /** The last non-empty segment, "" when there is none. */
  function LastNonEmpty(segs: seq<string>): (b: string)
    ensures b == "" || b in segs
    decreases |segs|
  {
    if segs == [] then ""
    else if segs[|segs| - 1] != "" then segs[|segs| - 1]
    else LastNonEmpty(segs[..|segs| - 1])
  }

  /** The final path component, trailing '/' ignored: what `path.basename` returns. */
  function BaseName(p: string): (b: string)
    ensures '/' !in b
  {
    LastNonEmpty(Split(p, '/'))
  }

  /** The position of the last '.', or -1. */
  function LastDot(b: string): (k: int)
    ensures -1 <= k < |b|
    ensures k >= 0 ==> b[k] == '.'
    ensures forall i :: k < i < |b| ==> b[i] != '.'
    decreases |b|
  {
    if b == [] then -1
    else if b[|b| - 1] == '.' then |b| - 1
    else LastDot(b[..|b| - 1])
  }

  /**
   * `path.extname(p)`: the base name from its last '.', or "" when it has no
   * '.', when that '.' opens the name, or when the name is "..".
   */
  function Extname(p: string): (e: string)
    ensures e == "" || (e[0] == '.' && '/' !in e)
    ensures forall i :: 1 <= i < |e| ==> e[i] != '.'
  {
    var b := BaseName(p);
    var k := LastDot(b);
    if k <= 0 || b == ".." then ""
    else
      var e := b[k..];
      assert forall i :: 1 <= i < |e| ==> e[i] == b[k + i];
      e
  }

  /** A file name with an extension, in any directory, has that extension. */
  lemma {:induction false} ExtnameOfFile(dir: string, stem: string, ext: string)
    requires stem != "" && ext != "" && '/' !in stem && '/' !in ext && '.' !in ext
    ensures Extname(dir + "/" + stem + "." + ext) == "." + ext
  {
    var n := stem + "." + ext;
    FileNameParts(stem, ext);
    assert dir + "/" + stem + "." + ext == dir + "/" + n;
    BaseNameOf(dir, n);
    assert |n| > 2;
  }

  lemma {:induction false} FileNameParts(stem: string, ext: string)
    requires '/' !in stem && '/' !in ext && '.' !in ext
    ensures '/' !in stem + "." + ext
    ensures LastDot(stem + "." + ext) == |stem|
    ensures (stem + "." + ext)[|stem|..] == "." + ext
  {
    var pre := stem + ".";
    var n := pre + ext;
    assert n == stem + ("." + ext);
    assert n[|stem|..] == "." + ext;
    NotInConcat(pre, ext, '/');
    ExtensionIndex(pre, ext);
    LastDotAt(n, |stem|);
  }

  lemma {:induction false} NotInConcat(a: string, b: string, c: char)
    requires c !in a && c !in b
    ensures c !in a + b
  {
    forall i | 0 <= i < |a + b| ensures (a + b)[i] != c {
      if i < |a| { assert (a + b)[i] == a[i]; } else { assert (a + b)[i] == b[i - |a|]; }
    }
  }

  lemma {:induction false} ExtensionIndex(pre: string, ext: string)
    requires pre != [] && pre[|pre| - 1] == '.' && '.' !in ext
    ensures (pre + ext)[|pre| - 1] == '.'
    ensures forall i :: |pre| <= i < |pre + ext| ==> (pre + ext)[i] != '.'
  {
    forall i | |pre| <= i < |pre + ext| ensures (pre + ext)[i] != '.' {
      assert (pre + ext)[i] == ext[i - |pre|];
    }
  }

  lemma {:induction false} BaseNameOf(dir: string, n: string)
    requires n != "" && '/' !in n
    ensures BaseName(dir + "/" + n) == n
  {
    assert dir + "/" + n == dir + ['/'] + n;
    SplitAround(dir, n, '/');
    SplitWithout(n, '/');
  }

  lemma {:induction false} LastDotAt(b: string, k: nat)
    requires k < |b| && b[k] == '.'
    requires forall i :: k < i < |b| ==> b[i] != '.'
    ensures LastDot(b) == k
    decreases |b|
  {
    if k < |b| - 1 {
      var b' := b[..|b| - 1];
      assert b'[k] == '.';
      assert forall i :: k < i < |b'| ==> b'[i] == b[i];
      LastDotAt(b', k);
    }
  }

  /** Joining two rendered paths appends the second's stack to the first's. */
  lemma {:induction false} JoinRenderedPath(st: seq<string>, more: seq<string>, t1: bool, t2: bool)
    requires AllNames(st) && AllNames(more)
    ensures var x := Render(more, t2);
      Join(Render(st, t1), x) == Render(st + more, x[|x| - 1] == '/')
  {
    var x := Render(more, t2);
    SplitRender(more, t2);
    JoinRendered(st, t1, x);
    var tail: seq<string> := if t2 || more == [] then [""] else [];
    assert Split(x, '/') == [""] + (more + tail);
    ResolveAppend(st, [""], more + tail, false);
    assert Resolve(st, [""], false) == st;
    ResolveAppend(st, more, tail, false);
    ResolveNames(st, more, false);
    assert Resolve(st + more, tail, false) == st + more;
    assert Resolve(st, Split(x, '/'), false) == st + more;
  }

  /** Nothing but the canonical root itself and paths below it are within it; "/" is not. */
  lemma {:induction false} WithinCanonical(p: string, root: string)
    requires Canonical(root) && Within(p, root)
    ensures |p| >= 2 && p[0] == '/'
  {
    if p != root {
      assert p[..|root|] == root;
    }
  }

  /** Climbing one level out of a directory and into a sibling `n`. */
  lemma {:induction false} JoinSibling(st: seq<string>, a: string, n: string, t: bool)
    requires AllNames(st) && IsName(a) && IsName(n)
    ensures Join(Render(st + [a], t), "/../" + n) == Render(st + [n], false)
  {
    var x := "/../" + n;
    SplitSibling(n);
    AllNamesSnoc(st, a);
    JoinRendered(st + [a], t, x);
    ResolveSibling(st, a, n);
    assert x[|x| - 1] == n[|n| - 1];
  }

  lemma {:induction false} SplitSibling(n: string)
    requires IsName(n)
    ensures Split("/../" + n, '/') == ["", "..", n]
  {
    var x := "/../" + n;
    assert x == "" + ['/'] + (".." + ['/'] + n);
    SplitAround("", ".." + ['/'] + n, '/');
    SplitAround("..", n, '/');
    SplitWithout("..", '/');
    SplitWithout(n, '/');
  }

  lemma {:induction false} ResolveSibling(st: seq<string>, a: string, n: string)
    requires IsName(a) && IsName(n)
    ensures Resolve(st + [a], ["", "..", n], false) == st + [n]
  {
    assert (st + [a])[..|st|] == st;
    assert Step(st + [a], "..", false) == st;
    assert ["", "..", n][1..] == ["..", n];
    assert ["..", n][1..] == [n];
    assert Resolve(st + [a], ["", "..", n], false) == Resolve(st + [a], ["..", n], false);
    assert Resolve(st + [a], ["..", n], false) == Resolve(st, [n], false);
  }

  lemma {:induction false} AllNamesSnoc(st: seq<string>, n: string)
    requires AllNames(st) && IsName(n)
    ensures AllNames(st + [n])
  {
    assert forall k :: 0 <= k < |st| ==> (st + [n])[k] == st[k];
  }

  /**
   * Two renderings agree exactly when the stacks agree and, unless the stack is
   * empty (the root "/" has no separate trailing form), so do the trailing flags.
   */
  lemma {:induction false} RenderInjective(st1: seq<string>, st2: seq<string>, t1: bool, t2: bool)
    requires AllNames(st1) && AllNames(st2)
    ensures Render(st1, t1) == Render(st2, t2) <==> st1 == st2 && (st1 == [] || t1 == t2)
  {
    if st1 != st2 {
      StackRender(st1, t1);
      StackRender(st2, t2);
    } else if st1 != [] && t1 != t2 {
      assert |Render(st1, true)| == |Render(st1, false)| + 1;
    }
  }
}

