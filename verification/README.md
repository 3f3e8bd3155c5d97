# Virtual-host router and profile site, in Dafny

This project models the hosting and routing engine of a small Node.js web server. It also models the profile pages of the site the server ships with. Every part is a pure function over immutable values, and the properties the code promises are proved as contracts and lemmas.

**The server (`src/server.ts`).** The server serves many sites from one root directory. Each top-level directory is a domain, and each directory below a domain is a subdomain. A directory named `~` replaces the domain's own directory and TLS files. For each request the server:

1. finds the site by host name;
2. takes the client address from `X-Forwarded-For`;
3. decides the site's mode. A site root holding a regular file `index.html` is a *document site*. Its files are served statically, through an optional blacklist and optional per-extension *mixins* (renderers under `mixins/`), and anything left over goes to its `routes/` directory. Any other site root is a routes directory.
4. For a routes directory, it picks the TypeScript route module with the longest matching path prefix, and runs that module's default export only when the export takes two parameters, or three for a protocol upgrade.

The TLS handshake picks key, certificate and CA files by the same host lookup.

**The profile site (`public/localhost`).** The model covers three parts of it:

- The update endpoint (`routes/api/profile.ts`) sanitises a posted JSON profile into a whitelisted, truncated and clamped record.
- The profile page route (`routes/index.ts`) writes escaped meta tags and inlines the stored user document into a `<script>`.
- The client script (`js/profile.js`) converts colour numbers to and from `#rrggbb` text, decides whether a colour is dark, shows media times as `m:ss`, and maps background types to select options.

**How the model is built:**

- **Filesystem.** The filesystem seen while serving is a map from file paths to contents plus a set of directory paths (`Files.Fs`). The start-up scan reads an ordered tree of directory entries (`Files.Entry`), because listing order decides which domain wins.
- **Paths.** `path.join` and `path.normalize` are modelled as string functions (`Paths`). The code's `startsWith` tests therefore compare exactly the strings Node compares.
- **Modules.** Loading a module is a lookup in a `Registry` from path to the default export's arity. A path missing from the registry stands for a failed import.
- **JavaScript semantics.** Truthiness, `typeof null === "object"`, first-occurrence `replace`, `Object.values` of a numeric enum, `parseInt(s, 16)`, `slice`, `padStart` and 32-bit shifts are all written out.
- **Corrected variants.** Where the code has a defect (see Findings), a parameter chooses between the code as written and the corrected version. `Routes.Guard` chooses `AsWritten` or `Contained`; `ProfilePage.TitleQuoting` chooses `FirstQuoteG` or `EveryQuote`.

**Behaviour the model keeps as the code has it:**

- A root directory that holds `index.html` is not turned into one unnamed site. The domain list stays empty, so every request is answered "Unknown host" (`Domains.IndexRoot`).
- Only one level of subdomains is indexed. Directories below a subdomain are scanned for route modules to import, but they never become sites (`Domains.DeclaredShape`).
- An upgrade whose site root is not a directory does not close the socket. Listing the root throws before the `try`, so the callback's promise is rejected (`Server.HandleUpgrade`, outcome `UpgradeFailed`).

## Model

| member | source | states |
|---|---|---|
| Text.Split | src/server.ts:454 | `split` yields at least one piece, and no piece holds the separator |
| Text.JoinSplit | src/server.ts:454-458 | joining the pieces of a split with the separator gives back the string |
| Text.SplitJoin | src/server.ts:454-458 | splitting a join of separator-free pieces gives back the pieces |
| Text.IndexOf | src/server.ts:79 | the first position where the pattern occurs, and -1 exactly when it occurs nowhere |
| Text.ReplaceFirst | src/server.ts:79 | only the first occurrence is replaced; without an occurrence the string is unchanged |
| Text.ReplaceSuffixLabel | src/server.ts:79 | removing `"." + d` from `x + "." + d` leaves `x` when `x` has no dot |
| Text.TrimStart | src/server.ts:387 | drops exactly the leading JavaScript white space |
| Text.TrimEnd | src/server.ts:387 | drops exactly the trailing JavaScript white space |
| Text.Upper | src/server.ts:341 | upper-cases each ASCII letter in place and keeps the length |
| Paths.NormalizeAbsolute | src/server.ts:371 | normalising an absolute path gives the rendering of its segment stack, keeping a trailing slash |
| Paths.NormalizeIdempotent | src/server.ts:371 | normalising twice is normalising once |
| Paths.StackRender | src/server.ts:371 | the segment stack of a rendered path is the stack it was rendered from |
| Paths.RenderInjective | src/server.ts:371 | two renderings are equal exactly when the stacks are equal and, for a non-empty stack, so are the trailing flags |
| Paths.JoinRendered | src/server.ts:371 | joining a relative or absolute path onto a rendered root folds its segments onto the root's stack |
| Paths.JoinName | src/server.ts:372-373 | joining a plain name appends one segment |
| Paths.JoinSibling | src/server.ts:371 | joining `/../n` onto `.../a` gives the sibling `.../n` |
| Paths.JoinChild | src/server.ts:372-373 | joining a plain name onto a canonical path appends `/name`, and the result is canonical |
| Paths.RenderWithin | src/server.ts:376-377 | a path whose stack extends the root's stack lies within the root |
| Paths.Extname | src/server.ts:351 | the extension is empty or a dot followed by dot-free, slash-free text |
| Paths.ExtnameOfFile | src/server.ts:351 | the extension of `dir/stem.ext` is `.ext` |
| Numerals.ToBase | public/localhost/js/profile.js:71-74 | `toString(radix)` writes at least one digit of the radix |
| Numerals.ValueOfToBase | public/localhost/js/profile.js:96 | the digits written read back as the number |
| Numerals.PadStart | public/localhost/js/profile.js:96 | pads on the left to the width with the fill character and keeps the text as a suffix |
| Numerals.PaddedTwoDigits | public/localhost/js/profile.js:96 | a number below the radix squared, padded to two, is its two digits |
| Numerals.TwoDigitsValue | public/localhost/js/profile.js:96 | two digits read back as the number |
| Numerals.HexRun | public/localhost/js/profile.js:77 | `parseInt(..., 16)` finds no number exactly when the text does not start with a hex digit |
| Numerals.ParseIntHexPlain | public/localhost/js/profile.js:77 | `parseInt(h, 16)` of plain hex digits is their value |
| Values.Get | public/localhost/routes/api/profile.ts:47 | reading a property throws exactly on `undefined` and `null`; a missing property is `undefined` |
| Files.DocumentDir | src/server.ts:100-109 | listing throws unless the path is a directory; a directory is a document site exactly when it holds a regular file `index.html` |
| Domains.Pem | src/server.ts:127-132 | a TLS file is recorded exactly when the directory has an entry of that name, at the joined path |
| Domains.Metadata | src/server.ts:122-125 | a new record is named after its directory, at the joined path, with no subdomain list |
| Domains.Dirs | src/server.ts:118 | an entry is kept exactly when it was listed and is a directory |
| Domains.DirsAppend | src/server.ts:118 | the filter keeps listing order: the directories of two listings in a row are those of the first, then those of the second |
| Domains.AddSubdomains | src/server.ts:121-156 | the loop keeps the name, and never adds a `~` record or a nested subdomain list |
| Domains.AddSubdomainsDeclared | src/server.ts:121-147 | the subdomains added are exactly the non-`~` directories, in listing order |
| Domains.AddSubdomainsKeeps | src/server.ts:134-147 | without a `~` directory, the domain's path and TLS files are unchanged |
| Domains.AddSubdomainsHoists | src/server.ts:134-145 | a `~` directory replaces the domain's path with `~`'s path and each TLS file with `~`'s own file or nothing |
| Domains.IndexDomain | src/server.ts:117-178 | a document domain gets no subdomain list; any other gets a flat list without `~` |
| Domains.IndexDomainSubdomains | src/server.ts:117-158 | a non-document domain's subdomains are exactly its non-`~` directories |
| Domains.IndexDomainTilde | src/server.ts:134-145 | indexing a domain with one `~` directory hoists that directory's path and TLS files |
| Domains.DeclaredShape | src/server.ts:122-125 | every declared subdomain is flat, not `~`, at `join(path, name)`, and named after an entry |
| Domains.IndexDomains | src/server.ts:205-250 | one domain per top-level directory, in listing order: domain i is the indexed record of directory i (its metadata, then its subdomains and `~` hoisting), with flat `~`-free subdomain lists |
| Domains.IndexRoot | src/server.ts:200-250 | a root directory that is a document site yields no domains; any other yields one indexed domain per top-level directory, in listing order |
| Hosts.FindByName | src/server.ts:79 | `find` by name: absent exactly when no record has the name; otherwise a record of that name |
| Hosts.FirstServing | src/server.ts:498-505 | the first domain, in list order, that serves the host |
| Hosts.Lookup | src/server.ts:498-508 | no site exactly when no domain serves the host; otherwise the first domain that does, with its subdomain for the host |
| Hosts.SiteRoot | src/server.ts:517-523 | the site root is the subdomain's path when a subdomain with a non-empty path matched, else the domain's path |
| Hosts.LookupSubdomain | src/server.ts:498-508 | `x.d` goes to the first domain `d` with a subdomain `x`, from that subdomain |
| Hosts.LookupBare | src/server.ts:498-508 | the bare name `d` goes to domain `d`, from the domain's own directory |
| Hosts.SniCallback | src/server.ts:67-98 | the handshake throws on an insecure server and when the domain search faults; a missed domain answers "Unknown host"; a found domain gives the context of its matching subdomain's files, falling back to the domain's and the configuration's, and throws when no subdomain matches |
| Hosts.SniFindAgrees | src/server.ts:74-84 | when the handshake's search does not throw, it finds the domain the request path finds |
| Hosts.SniCallbackOn | src/server.ts:614-628 | called on the TLS socket, as the unbound method is, the callback throws; bound to the server it is Hosts.SniCallback |
| Hosts.SniUnboundThrows | src/server.ts:67-72 | passed unbound, the callback fails the handshake even for a host a domain serves, where the bound and guarded callback gives a context |
| Hosts.SniContextAgrees | src/server.ts:67-98 | where the handshake as written gives a context, the request path finds a site with a subdomain and the guarded handshake gives the same context |
| Hosts.SniFindTotal | src/server.ts:78 | the search cannot throw when every domain has a subdomain list |
| Hosts.SniCallbackGuarded | src/server.ts:82-95 | with `?.` on both reads, the handshake answers "Unknown host" exactly when the lookup fails, and gives a context otherwise |
| Hosts.SniGuardedFallback | src/server.ts:88-95 | each of key, cert and CA is the first truthy value among subdomain, domain and configuration, and is unset when none is truthy |
| Hosts.SniBareDomainThrows | src/server.ts:90 | a handshake for a bare domain name throws as written; the guarded form uses the domain's own files |
| Responses.NotFoundBody | src/server.ts:332-343 | the 404 body is `Cannot `, the upper-cased method (empty when absent), a space and the pathname |
| Routes.RouteCandidate | src/server.ts:440-452 | tries `route.ts` (never for the routes directory itself), then `route/index.ts` in a directory; the result is a regular file |
| Routes.LastHit | src/server.ts:455-474 | the loop stops at the longest prefix that names a route |
| Routes.ShortenedRoute | src/server.ts:454-474 | the loop finds a module exactly when some prefix of one or more segments names one, and then it is the module of the longest such prefix |
| Routes.ResolveRoute | src/server.ts:437-476 | the full pathname wins when it names a route, and otherwise the shortening loop decides; any result is a regular file |
| Routes.ResolveFallsBackToIndex | src/server.ts:454-473 | a routes directory with `index.ts` always resolves a route, for requests and for upgrades |
| Routes.Invoke | src/server.ts:478-489 | a route runs exactly when its export is a two-parameter function; a failed import is logged; anything else is a 404 |
| Routes.MiddlewareMode | src/server.ts:431-490 | a missing routes directory gives a 404; otherwise, past the guard, the resolved module is invoked (run with a two-parameter export, failed when its import fails, else 404) and no module gives a 404 |
| Routes.StepRouteShape | src/server.ts:458-459 | every prefix the loop probes is the routes directory's stack extended by plain names |
| Routes.ShortenedWithin | src/server.ts:454-474 | a route found by shortening lies within the routes directory |
| Routes.ResolveWithin | src/server.ts:437-476 | when the joined path stays in the routes directory, so does the resolved route |
| Routes.ContainedRouteWithin | src/server.ts:436-486 | with the containment guard, every route run or imported lies within the routes directory |
| Routes.RouteEscape | src/server.ts:437-452 | as written, `/../x` runs the sibling module `x.ts` outside the routes directory; the guarded form answers 404 |
| Statics.BlacklistEntries | src/server.ts:382-388 | the entries are exactly the non-empty trimmed lines |
| Statics.NonBlank | src/server.ts:388 | keeps exactly the non-empty lines |
| Statics.StaticTarget | src/server.ts:390-408 | index directory (after the trailing-slash redirect), then `.html` unless the path is the root, then the file itself; each taken only when the earlier ones fail |
| Statics.MixinExtension | src/server.ts:351 | the extension without its dot, `html` when there is none; never empty, no slash or dot |
| Statics.MixinForExtension | src/server.ts:351-353 | `dir/stem.ext` uses `root/mixins/ext.ts` |
| Statics.MixinForPlainName | src/server.ts:351-353 | a dot-free name uses `root/mixins/html.ts` |
| Statics.ServeFile | src/server.ts:345-364 | a mixin renders the file exactly when its module exists and loads as a function; otherwise the file is streamed |
| Statics.FileModeRequest | src/server.ts:366-425 | a joined path failing the guard (prefix test as written, containment when corrected) or whose joined path starts with the string `root/routes` or `root/mixins` gives a 404, and every other request goes on to the static lookup; a served file is a regular file that is not the blacklist and is not covered by an entry |
| Statics.RoutesPrefixRefused | src/server.ts:378-380 | the refusal is a string-prefix test: `/routes.html` or `/mixins-old.css`, beside those directories, also gets a 404 |
| Statics.StaticRequest | src/server.ts:382-424 | a directory with `index.html` reached without a slash redirects to the path plus a slash; a target the blacklist lets through is served; a blocked target gives a 404; with no file on disk, the routes directory answers unless the blacklist blocks the path |
| Statics.ContainedServesWithin | src/server.ts:376-381 | with the containment guard, every file served or rendered lies within the site root |
| Statics.SiblingPrefixEscape | src/server.ts:376-381 | as written, root `.../a` serves `/../ab` from the sibling `.../ab`; the guarded form answers 404 |
| Statics.SiblingPaths | src/server.ts:371-377 | `/../ab` joined onto `.../a` is `.../ab`, which starts with the root string but lies outside it |
| Statics.SiblingContained | src/server.ts:376-381 | the guarded handler refuses the sibling path |
| Server.FirstHop | src/server.ts:538-540 | the first comma-separated item: a comma-free prefix ending at a comma or at the end |
| Server.ClientIp | src/server.ts:532-542 | the remote address unless forwarded-for is trusted and present and non-empty, then the first hop of its first value |
| Server.ClientIpSingleHop | src/server.ts:540 | a single trusted hop is the client address |
| Server.ClientIpIgnoresLaterHops | src/server.ts:540 | only the hop before the first comma counts |
| Server.ContentType | src/server.ts:565-575 | `.ico` is `image/x-icon`, a known extension its type, no extension the `txt` type, anything else `text/plain` |
| Server.HandleRequest | src/server.ts:492-524 | "Unknown host" exactly when the lookup fails; a crash exactly when the site root is not a directory; a document site goes to static file mode and any other site root to its routes |
| Server.HandleUpgrade | src/server.ts:254-330 | an unknown host destroys the socket; the promise fails exactly when the site root is not a directory; otherwise the module resolved under the site's routes directory runs exactly when its export takes three parameters, and the socket is destroyed otherwise |
| Server.ArityPartition | src/server.ts:321-326 | no module is run both as a request route and as an upgrade route |
| Server.UnknownHostAnswer | src/server.ts:510-515 | a host no domain serves gets status 400, and its upgrade is destroyed |
| Server.RequestStaysInSite | src/server.ts:517-523 | with the containment guard, nothing outside the site root is sent, rendered or run |
| Server.DocumentSiteWithin | src/server.ts:366-425 | in static file mode with the guard, files and routes stay within the site root |
| Colors.Byte | public/localhost/js/profile.js:71-74 | `(c >> 8k) & 0xff` is a byte of the 32-bit pattern |
| Colors.BytesCompose | public/localhost/js/profile.js:71-74 | a 32-bit value is its four bytes, most significant first |
| Colors.BytesOf | public/localhost/js/profile.js:71-74 | the bytes of a value assembled from four bytes are those bytes |
| Colors.RgbaHex | public/localhost/js/profile.js:67-74 | null exactly outside 1..0xffffffff; otherwise `#` and eight lower-case hex digits |
| Colors.RgbaHexValue | public/localhost/js/profile.js:67-74 | the eight digits read back as the colour |
| Colors.RgbHex | public/localhost/routes/index.ts:69-75 | null exactly outside 1..0xffffffff; otherwise `#` and six lower-case hex digits |
| Colors.RgbHexValue | public/localhost/routes/index.ts:69-75 | the six digits read back as the colour without its alpha byte |
| Colors.RgbHexIsPrefix | public/localhost/routes/index.ts:69-75 | the page's colour is the client's colour without the two alpha digits |
| Colors.HexBytesValue | public/localhost/js/profile.js:71-74 | the hex digits of some bytes read back as the number they denote |
| Colors.ColorNumber | public/localhost/js/profile.js:76-79 | `toColorNum` is an unsigned 32-bit value with an opaque alpha byte |
| Colors.ColorNumberOfInput | public/localhost/js/profile.js:76-79 | the number of `#rrggbb` is its value times 256 plus 255 |
| Colors.OpaqueColorOfInput | public/localhost/js/profile.js:67-79 | that number prints back as `#rrggbbff`, and on the page as `#rrggbb` |
| Colors.ColorInputRoundTrip | public/localhost/js/profile.js:274-281 | `getColor(toColorNum(s)).slice(0, -2)` is `s` for a lower-case `#rrggbb` |
| Colors.IsDark | public/localhost/js/profile.js:81-89 | channels all at most 127 are dark; channels all at least 128 are not |
| Colors.IsDarkIgnoresAlpha | public/localhost/js/profile.js:81-89 | darkness does not depend on the alpha byte |
| Colors.IsDarkOfValue | public/localhost/js/profile.js:81-89 | an opaque colour is dark exactly when the max plus the min of its channels is at most 255 |
| Colors.IsDarkOfInput | public/localhost/js/profile.js:81-89 | a colour read from `#rrggbb` is dark exactly when the channels the text names are |
| ProfileApi.Clip | public/localhost/routes/api/profile.ts:42 | `slice(0, n)` is a prefix of at most `n` characters, the whole string when it is shorter |
| ProfileApi.TextField | public/localhost/routes/api/profile.ts:41-44 | a string is kept, cut to the limit; anything else is dropped |
| ProfileApi.NumberField | public/localhost/routes/api/profile.ts:76-77 | a number is kept as it is; anything else is dropped |
| ProfileApi.Clamp01 | public/localhost/routes/api/profile.ts:91-95 | the opacity is clamped to [0, 1], values inside unchanged |
| ProfileApi.SanitizeTheme | public/localhost/routes/api/profile.ts:45-54 | `null` throws; the theme is kept exactly when both colours are non-zero numbers |
| ProfileApi.SanitizeMusic | public/localhost/routes/api/profile.ts:57-67 | `null` throws; music is kept exactly when its url is a non-empty string, with name and url cut to 8192 |
| ProfileApi.SanitizeBackground | public/localhost/routes/api/profile.ts:70-102 | `null` throws; the background is kept exactly when its type is a background type; fields are cut, opacity clamped |
| ProfileApi.Sanitize | public/localhost/routes/api/profile.ts:32-112 | throws exactly on an `undefined` or `null` body, a `null` theme, music or background, or a boolean `noSanitize` when the caller has no user document; a developer may name the target; bio and avatar cut; theme, music and background are what the block sanitisers make of the posted blocks; the description is kept, cut, exactly when the posted background is an object and the description a string; `noSanitize` only for developers; result well formed |
| ProfileApi.ThemeRoundTrip | public/localhost/routes/api/profile.ts:45-54 | a complete theme posted back is kept unchanged |
| ProfileApi.MusicRoundTrip | public/localhost/routes/api/profile.ts:57-67 | a complete music block posted back is kept unchanged |
| ProfileApi.BackgroundRoundTrip | public/localhost/routes/api/profile.ts:70-102 | a complete background posted back is kept unchanged |
| ProfileApi.SanitizeRoundTrip | public/localhost/routes/api/profile.ts:32-112 | a well-formed profile posted back by its owner (its `noSanitize` flag only by a developer) is written unchanged, except that a description without a background is dropped; a profile whose description comes with a background is a fixpoint |
| ProfileApi.SanitizeSettles | public/localhost/routes/api/profile.ts:32-112 | posting back twice writes what posting back once wrote |
| ProfileApi.DescriptionOutlivesBackground | public/localhost/routes/api/profile.ts:97-108 | a description posted with an unknown background type is kept while the background is dropped, and is lost on the next post |
| ProfileApi.ProfileRoute | public/localhost/routes/api/profile.ts:11-119 | 405 exactly for a verb other than POST; no reply at all when the Authorization header is missing or holds no space; then 401 exactly for bad credentials, 200 exactly when sanitising and the write succeed, else 400; only a 200 writes, and it writes the sanitised body |
| ProfileApi.ProfileRouteRoundTrip | public/localhost/routes/api/profile.ts:11-119 | an owner posting back a well-formed profile with accepted credentials gets a 200 and the write of the profile as it settles |
| ProfilePage.EnumValues | public/localhost/routes/index.ts:24-29 | `Object.values` of a numeric enum lists the member names, then the indices |
| ProfilePage.BackgroundTypes | public/localhost/routes/index.ts:24-29 | the accepted types are the four member names and the numbers 0 to 3 |
| ProfilePage.EscapeHtml | public/localhost/routes/index.ts:65-67 | the result holds none of `& < > / " '` |
| ProfilePage.EscapeHtmlKeepsSafe | public/localhost/routes/index.ts:65-67 | text without those characters is unchanged |
| ProfilePage.EscapeHtmlIdempotent | public/localhost/routes/index.ts:65-67 | escaping twice is escaping once |
| ProfilePage.EscapeHtmlAppend | public/localhost/routes/index.ts:65-67 | escaping works character by character, keeping order |
| ProfilePage.EscapeHtmlChar | public/localhost/routes/index.ts:65-67 | a character is kept exactly when it is not one of those removed |
| ProfilePage.EscapeChar | public/localhost/routes/index.ts:117 | every occurrence of the character ends up preceded by a backslash |
| ProfilePage.UnescapeEscape | public/localhost/routes/index.ts:117 | escaping loses nothing: dropping the backslashes gives back the text |
| ProfilePage.ProfileScript | public/localhost/routes/index.ts:115-118 | the inline script's only `</` is its closing tag |
| ProfilePage.ClosingTagOnlyAtEnd | public/localhost/routes/index.ts:115-118 | with every slash escaped, `</` occurs only at `</script>` |
| ProfilePage.QuoteTitle | public/localhost/routes/index.ts:104-108 | with every quote escaped, each quote in the title is preceded by a backslash |
| ProfilePage.TitleQuoteUnescaped | public/localhost/routes/index.ts:106 | as written, a quote not followed by `g` stays bare; the corrected form escapes it |
| ProfilePage.UserName | public/localhost/routes/index.ts:82 | the user name is the pathname without its first character |
| ProfilePage.RenderProfile | public/localhost/routes/index.ts:82-118 | 404 exactly for an unknown user; the document keeps every property except `_id`, `pass`, `salt`; the meta tags are the stored user's: the theme colour is the page colour of `primary` (null exactly out of range), the image is the avatar with its quotes escaped, the title is the quoted name, the description is the stored one with unsafe characters removed; with every quote escaped, no quote in the title is bare |
| ProfilePage.PageTitleQuoting | public/localhost/routes/index.ts:104-108 | a user named `"x` gets an `og:title` with a bare quote as written, and an escaped quote when every quote is escaped |
| ProfileClient.Minutes | public/localhost/js/profile.js:94 | whole minutes: `60m <= sec < 60m + 60` |
| ProfileClient.SecondsPast | public/localhost/js/profile.js:95 | seconds past the minute: below 60, and with the minutes they make up the whole seconds |
| ProfileClient.MinSec | public/localhost/js/profile.js:91-97 | falsy times show `0:00`; every display ends in a colon and two characters |
| ProfileClient.MinSecParts | public/localhost/js/profile.js:91-97 | the display is the minutes' digits, `:` and two-digit seconds |
| ProfileClient.MinSecRoundTrip | public/localhost/js/profile.js:91-97 | reading the display back gives the whole seconds |
| ProfileClient.TypeName | public/localhost/js/profile.js:311-313 | a falsy type shows `none`; any option shown is one of the four |
| ProfileClient.TypeIndex | public/localhost/js/profile.js:435-437 | `indexOf` is -1 exactly for a name not among the options, else the option's position |
| ProfileClient.TypeIndexName | public/localhost/js/profile.js:311-313 | the option shown for type 0 to 3 is saved as that type |
| ProfileClient.TypeNameIndex | public/localhost/js/profile.js:435-437 | the number saved for an option shows that option again |
| ProfileClient.SavedTypeAccepted | public/localhost/js/profile.js:435-437 | the number the form saves is accepted by the update endpoint exactly when the select holds an option |
| ProfileClient.MemberNamesShowNoOption | public/localhost/js/profile.js:311-313 | a type stored as a member name is accepted but shows no option |

## Left out

- Transport and TLS plumbing are not modelled: server construction, `listen`, and `createSecureContext`, to which the key, certificate and CA paths are passed.
- `SNICallback` is passed unbound (`src/server.ts:614-628`), so as written every handshake that names a server throws (see Findings, Hosts.SniUnboundThrows). Hosts.SniCallback models the callback as if `this` were the server, to state what the rest of its body does.
- Module loading is a `Registry` lookup. These side effects of loading are not modelled: the start-up import loop over `.ts` files (`src/server.ts:180-197`), and the code each module runs.
- URL parsing, `decodeURIComponent` and the query object are not modelled. A `Request` carries the decoded pathname and the host name.
- The MIME table is a parameter of Server.ContentType.
- Async and streams are not modelled: `await`, piping files, and the request logger (`src/logger.ts`).
- When a route's import throws, the HTTP catch path only logs and sends nothing. It is the outcome `RouteFailed`.
- The credential check (`routes/api/login.ts`, SHA-256 and the database) is the parameter `authorized`. The Authorization header is a parameter; the model decides only whether it can be taken apart, and the base64 decoding of the names is left out.
- The user database is a parameter too: a map of users, the `horny` flag, and `writeFails`.
- Route modules `api.ts` and the `md.ts` mixin, and everything the profile client script does with the DOM, audio, `fetch`, local storage and UTF-8, are not modelled.
- Numbers are reals. Floating-point rounding is not modelled.
- Colors.Byte: takes integral colour numbers. The settings form writes integers through `toColorNum`, but the update endpoint keeps any number (ProfileApi.NumberField keeps any real), so a direct POST can store a fractional colour, which `>>` then truncates. Fractional colours are left out.
- ProfilePage.RenderProfile: the stored user's colours (ProfilePage.StoredUser) are integers, for the same reason as Colors.Byte: a fractional colour stored by a direct POST is left out.
- ProfileClient.MinSec: does not model NaN, negative or infinite times. NaN is the falsy case `None`, and media times are never negative. A stream with no known end has `duration` +Infinity, which `minSec` (`public/localhost/js/profile.js:242`) shows as `Infinity:NaN`; reals cannot represent it.
- ProfileClient.IndexKey: recognises numbers and decimal strings as array indices. Other values that JavaScript converts to an index string, such as one-element arrays, are left out.
- Routes.ResolveUpgradeRoute: its two direct probes (`src/server.ts:284-293`) join the pathname with no containment test, and nothing is proved about their containment: the same escape as the second finding applies to upgrades, and no guarded upgrade variant is modelled. Only the shortening loop it shares is proved contained, by Routes.ShortenedWithin.
- Strings are sequences of Unicode scalar values, as Dafny's `char` is, while JavaScript strings are UTF-16 code units: lengths, `slice` limits and indices differ on characters outside the Basic Multilingual Plane.
- The corrected title quoting puts a backslash before each quote, as the code intends. A backslash is not an HTML attribute escape, so the model makes no claim that the attribute is safe for HTML parsers.
- JSON parsing and `JSON.stringify` are not modelled. The body arrives as an optional parsed value, and the inline script is built from the serialised text.

## Findings

Each finding's corrected member is used by the rest of the model when the guard parameter (`Routes.Guard` or `ProfilePage.TitleQuoting`) selects it. For the two handshake findings the corrected callback is Hosts.SniCallbackGuarded: bound to the server, and reading the subdomain with `?.`.

| source | as written | input that shows it | evidently intended | confidence | as-written member | corrected member |
|---|---|---|---|---|---|---|
| src/server.ts:376-381 | the traversal guard is `filePath.startsWith(path)`, a string-prefix test | site root `/s/a`, request path `/..%2Fab/x` (decoded `/../ab/x`): the sibling directory `/s/ab` passes the guard and its files are served | serve only paths equal to the root or starting with `root + "/"` | not executed | Statics.SiblingPrefixEscape | Statics.ContainedServesWithin |
| src/server.ts:437-452 | the full-path probes of route resolution join the pathname with no containment test | routes directory `/s/r`, request path `/..%2Fx` with a file `/s/x.ts` exporting a two-parameter function: that module runs | run only modules inside the routes directory, as the shortening loop already ensures | not executed | Routes.RouteEscape | Routes.ContainedRouteWithin |
| src/server.ts:614-628 | `SNICallback: this.SNICallback` passes the method unbound, so the TLS layer calls it with the TLS socket as `this`, and `this.config.secure` (line 71) reads a property of `undefined` | a secure server with a domain `d` and a handshake naming `d`: the callback throws and the handshake fails; this happens before the line-90 defect below can | `this.SNICallback.bind(this)`, as the request and upgrade callbacks are bound | not executed | Hosts.SniUnboundThrows | Hosts.SniCallbackGuarded |
| src/server.ts:90 | `subdomain.key` is read without `?.` (and line 78 reads `e.subdomains.find` without `?.`) | a TLS handshake naming a bare domain `d` that has no subdomain called `d`: `subdomain` is `undefined` and the callback throws | fall back to the domain's and the configuration's files, as the request path does with `?.` | not executed | Hosts.SniBareDomainThrows | Hosts.SniGuardedFallback |
| public/localhost/routes/index.ts:106 | `name.replace(/"g/, '\\"')` replaces only the first `"g` | the user name `"x` is written into the `og:title` attribute with a bare quote | `replace(/"/g, '\\"')`, as for `og:image` on line 101 | not executed | ProfilePage.TitleQuoteUnescaped | ProfilePage.QuoteTitle |
