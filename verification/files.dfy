/**
 * The two views of the filesystem the server has.
 *
 * At start-up it lists directories (`readdirSync(dir, { withFileTypes: true })`),
 * whose order matters: that view is an ordered tree of entries. While serving
 * requests it asks `existsSync`/`statSync`/`readFileSync` about single paths:
 * that view is a set of directory paths and a map from file paths to their text.
 * Paths in both are the normalised strings `path.join` produces.
 */
module Files {
  import opened Wrappers
  import opened Paths

  /** One directory entry as `readdirSync` lists it. */
  datatype Entry = File(name: string) | Dir(name: string, children: seq<Entry>)

  /** The request-time filesystem. */
  datatype Fs = Fs(files: map<string, string>, dirs: set<string>)

  datatype Kind = Missing | RegularFile | Directory

  /**
   * What `statSync(p)` reports, `Missing` when `existsSync(p)` is false.
   * A trailing '/' only resolves through a directory.
   */
  function KindOf(fs: Fs, p: string): Kind {
    if p in fs.files then RegularFile
    else if p in fs.dirs then Directory
    else if |p| > 1 && p[|p| - 1] == '/' && p[..|p| - 1] in fs.dirs then Directory
    else Missing
  }

  predicate Exists(fs: Fs, p: string) {
    KindOf(fs, p) != Missing
  }

  /** `existsSync(p) && statSync(p).isFile()`. */
  predicate IsFile(fs: Fs, p: string) {
    KindOf(fs, p) == RegularFile
  }

  /** `existsSync(p) && statSync(p).isDirectory()`. */
  predicate IsDir(fs: Fs, p: string) {
    KindOf(fs, p) == Directory
  }

  /** A listing is a document site when it holds a regular file named `index.html`. */
  predicate IsDocumentListing(entries: seq<Entry>) {
    File("index.html") in entries
  }

  /**
   * `isDocumentDir(path)` at request time: `readdirSync` throws (`None`) unless
   * `p` is a directory; otherwise, does `p` hold a regular file `index.html`?
   */
  function DocumentDir(fs: Fs, p: string): (r: Option<bool>)
    ensures r.Some? <==> IsDir(fs, p)
    ensures r.Some? ==> (r.value <==> IsFile(fs, Join(p, "index.html")))
  {
    if !IsDir(fs, p) then None else Some(Join(p, "index.html") in fs.files)
  }

  /** Some entry of the listing is called `n`, whatever its type (what `existsSync` asks). */
  predicate HasEntry(entries: seq<Entry>, n: string) {
    exists i :: 0 <= i < |entries| && entries[i].name == n
  }
}
