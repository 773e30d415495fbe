/** The routing decision of web/middleware.ts, as a function of the path and whether the
    request carries a session. */
module Middleware {
  import opened Text

  datatype Decision = Pass | Redirect(location: string, query: seq<(string, string)>)

  const SignIn: string := "/sign-in"
  const Dashboard: string := "/dashboard"

  predicate IsAuthPage(path: string) {
    path == SignIn
  }

  /** `/resume` is a plain prefix, so it also covers `/resumes…`. */
  predicate IsProtected(path: string) {
    StartsWith(path, "/dashboard") || StartsWith(path, "/resume") || StartsWith(path, "/profile")
  }

  /** Computed by the middleware but never consulted. */
  predicate IsPublic(path: string) {
    path == "/" || StartsWith(path, "/auth/") || StartsWith(path, "/s/") ||
    StartsWith(path, "/api/") || StartsWith(path, "/_next/") || StartsWith(path, "/render/")
  }

  function Route(path: string, session: bool): (d: Decision)
    ensures d.Redirect? ==> d.location == SignIn || d.location == Dashboard
  {
    if session && IsAuthPage(path) then Redirect(Dashboard, [])
    else if !session && IsProtected(path) then Redirect(SignIn, [("redirect", path)])
    else Pass
  }

  /** The three outcomes: a session on `/sign-in` goes to the dashboard, no session on
      a protected path goes to `/sign-in?redirect=<path>`, all else passes. */
  lemma RouteCases(path: string, session: bool)
    ensures Route(path, session) == Redirect(Dashboard, []) <==> session && path == SignIn
    ensures Route(path, session) == Redirect(SignIn, [("redirect", path)]) <==> !session && IsProtected(path)
    ensures Route(path, session) == Pass <==> !(session && path == SignIn) && !(!session && IsProtected(path))
  {
    assert !IsProtected(SignIn) by { SignInNotProtected(); }
  }

  lemma SignInNotProtected()
    ensures !IsProtected(SignIn)
  {
    assert SignIn[1] == 's';
    assert "/dashboard"[1] == 'd' && "/resume"[1] == 'r' && "/profile"[1] == 'p';
  }

  /** A session holder is never sent away from a protected path. */
  lemma SessionKeepsProtected(path: string)
    requires IsProtected(path)
    ensures Route(path, true) == Pass
  {
    SignInNotProtected();
  }

  /** `/resume` covers the resume list as well as single resumes. */
  lemma ResumesAreProtected(rest: string)
    ensures IsProtected("/resumes" + rest) && IsProtected("/resume/" + rest)
  {
    assert ("/resumes" + rest)[..7] == "/resume";
    assert ("/resume/" + rest)[..7] == "/resume";
  }

  /** Every public path passes, with or without a session: `isPublicRoute` has no
      effect of its own. */
  lemma PublicPathsPass(path: string, session: bool)
    requires IsPublic(path)
    ensures Route(path, session) == Pass
  {
    SignInNotProtected();
    if StartsWith(path, "/auth/") {
      Unguarded(path, "/auth/");
    } else if StartsWith(path, "/s/") {
      Unguarded(path, "/s/");
    } else if StartsWith(path, "/api/") {
      Unguarded(path, "/api/");
    } else if StartsWith(path, "/_next/") {
      Unguarded(path, "/_next/");
    } else if StartsWith(path, "/render/") {
      Unguarded(path, "/render/");
    }
  }

  /** A path under a public prefix is neither `/sign-in` nor protected. */
  lemma Unguarded(path: string, a: string)
    requires a in ["/auth/", "/s/", "/api/", "/_next/", "/render/"] && StartsWith(path, a)
    ensures !IsProtected(path) && path != SignIn
  {
    StartsWithClash(path, a, SignIn, if a == "/s/" then 2 else 1);
    StartsWithClash(path, a, "/dashboard", 1);
    StartsWithClash(path, a, "/resume", if a == "/render/" then 3 else 1);
    StartsWithClash(path, a, "/profile", 1);
    assert path == SignIn ==> StartsWith(path, SignIn);
  }
}
