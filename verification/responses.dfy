/**
 * What the server does with a request, and the loaded handler modules it can
 * call.
 */
module Responses {
  import opened Wrappers
  import opened Text

  /**
   * The parts of a request the router reads. `verb` is the HTTP method, which
   * can be absent.
   */
  datatype Request = Request(verb: Option<string>, pathname: string, hostname: string)

  /**
   * The default export of a module, as `import`/`require` yields it. `arity` is
   * the function's declared parameter count (`fn.length`).
   */
  datatype Export = Callable(arity: nat) | NotCallable

  /**
   * The modules that load. A path outside the map is one whose `import` or
   * `require` throws.
   */
  type Registry = map<string, Export>

  /** The observable outcome of one HTTP request. */
  datatype Outcome =
    | UnknownHost                         // 400, "Unknown host"
    | NotFound(body: string)              // 404, text/plain
    | Redirect(location: string)          // 302
    | SendFile(file: string)              // the file is streamed
    | RunMixin(mixin: string, file: string) // the mixin renders the file
    | RunRoute(route: string)             // the route's default export handles the request
    | RouteFailed(route: string)          // the import threw: logged, nothing is sent
    | Crash                               // an exception escapes the request handler

  /** The HTTP status the server itself writes, where it writes one. */
  function Status(o: Outcome): Option<nat> {
    match o
    case UnknownHost => Some(400)
    case NotFound(_) => Some(404)
    case Redirect(_) => Some(302)
    case _ => None
  }

  /**
   * The body of a 404: "Cannot ", the method in upper case (nothing when it is
   * absent), a space, and the pathname.
   */
  function NotFoundBody(verb: Option<string>, pathname: string): (body: string)
    ensures var m := verb.GetOr("");
      |body| == 8 + |m| + |pathname|
      && StartsWith(body, "Cannot ")
      && EndsWith(body, " " + pathname)
      && forall i :: 0 <= i < |m| ==> body[7 + i] == UpperChar(m[i])
  {
    var m := verb.GetOr("");
    var body := "Cannot " + Upper(m) + " " + pathname;
    assert body[|body| - |" " + pathname|..] == " " + pathname;
    body
  }
}
