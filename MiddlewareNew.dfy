/** The routing decision of web/middleware-new.ts: protected and auth path prefixes, the
    session read (which can fail or throw) and the access-token case of the auth-code
    error page. */
module MiddlewareNew {
  import opened Wrappers
  import opened Text

  const ProtectedPaths: seq<string> := ["/dashboard", "/profile", "/resumes", "/settings"]
  const AuthPaths: seq<string> := ["/sign-in", "/sign-up", "/auth/auth-code-error"]
  const AuthCodeError: string := "/auth/auth-code-error"
  const SignIn: string := "/sign-in"
  const Dashboard: string := "/dashboard"

  /** The cookie set on the redirect to `/sign-in`. */
  datatype Cookie = Cookie(name: string, value: string, maxAge: nat, httpOnly: bool)

  datatype Decision = Pass | Redirect(location: string, cookie: Option<Cookie>)

  /** What `getSession` gives: an error result, an exception, or a session (with or
      without a user). */
  datatype SessionRead = ReadError | Threw | Read(authenticated: bool)

  predicate StartsWithAny(path: string, prefixes: seq<string>) {
    exists i :: 0 <= i < |prefixes| && StartsWith(path, prefixes[i])
  }

  predicate IsProtected(path: string) { StartsWithAny(path, ProtectedPaths) }

  predicate IsAuthPath(path: string) { StartsWithAny(path, AuthPaths) }

  /** `url.searchParams.has('access_token') || url.hash.includes('access_token')` */
  predicate HasAccessToken(tokenParam: bool, hash: string) {
    tokenParam || Contains(hash, "access_token")
  }

  function Route(path: string, read: SessionRead, tokenParam: bool, hash: string): (d: Decision)
    ensures d.Redirect? ==> d.location == SignIn || d.location == Dashboard
  {
    match read
    case ReadError => if IsProtected(path) then Redirect(SignIn, None) else Pass
    case Threw => if IsProtected(path) then Redirect(SignIn, None) else Pass
    case Read(authenticated) =>
      if authenticated && IsAuthPath(path) && path != AuthCodeError then Redirect(Dashboard, None)
      else if !authenticated && IsProtected(path) then
        Redirect(SignIn, Some(Cookie("redirectAfterAuth", path, 60 * 5, true)))
      else if path == AuthCodeError && HasAccessToken(tokenParam, hash) && authenticated then Redirect(Dashboard, None)
      else Pass
  }

  /** No path is both protected and an auth path. */
  lemma ProtectedAndAuthDisjoint(path: string)
    ensures !(IsProtected(path) && IsAuthPath(path))
  {
    forall i, j | 0 <= i < |ProtectedPaths| && 0 <= j < |AuthPaths|
      ensures !(StartsWith(path, ProtectedPaths[i]) && StartsWith(path, AuthPaths[j]))
    {
      var a := ProtectedPaths[i];
      var b := AuthPaths[j];
      if a == "/settings" && (b == "/sign-in" || b == "/sign-up") {
        StartsWithClash(path, a, b, 2);
      } else {
        StartsWithClash(path, a, b, 1);
      }
    }
  }

  /** A failed or throwing session read sends a protected path to `/sign-in`, without
      the return cookie, and lets everything else pass. */
  lemma ErrorsGuardOnlyProtected(path: string, read: SessionRead, tokenParam: bool, hash: string)
    requires read == ReadError || read == Threw
    ensures Route(path, read, tokenParam, hash) == if IsProtected(path) then Redirect(SignIn, None) else Pass
  {
  }

  /** A signed-in user on an auth path other than the auth-code error page goes to the
      dashboard. */
  lemma SignedInLeavesAuthPages(path: string, tokenParam: bool, hash: string)
    requires IsAuthPath(path) && path != AuthCodeError
    ensures Route(path, Read(true), tokenParam, hash) == Redirect(Dashboard, None)
  {
  }

  /** A visitor without a session on a protected path goes to `/sign-in` with a
      five-minute http-only cookie that remembers the path. */
  lemma SignedOutLeavesProtected(path: string, tokenParam: bool, hash: string)
    requires IsProtected(path)
    ensures Route(path, Read(false), tokenParam, hash) ==
            Redirect(SignIn, Some(Cookie("redirectAfterAuth", path, 300, true)))
  {
  }

  /** A signed-in user on a protected path always passes. */
  lemma SignedInKeepsProtected(path: string, tokenParam: bool, hash: string)
    requires IsProtected(path)
    ensures Route(path, Read(true), tokenParam, hash) == Pass
  {
    ProtectedAndAuthDisjoint(path);
    assert AuthCodeError[1] == 'a';
    assert !IsProtected(AuthCodeError) by { ProtectedAndAuthDisjoint(AuthCodeError); AuthCodeErrorIsAuthPath(); }
  }

  lemma AuthCodeErrorIsAuthPath()
    ensures IsAuthPath(AuthCodeError)
  {
    assert StartsWith(AuthCodeError, AuthPaths[2]);
  }

  /** On the auth-code error page itself, only an access token together with a
      signed-in session redirects (to the dashboard); everything else passes. */
  lemma AuthCodeErrorPage(tokenParam: bool, hash: string, authenticated: bool)
    ensures Route(AuthCodeError, Read(authenticated), tokenParam, hash) ==
            if HasAccessToken(tokenParam, hash) && authenticated then Redirect(Dashboard, None) else Pass
  {
    AuthCodeErrorIsAuthPath();
    ProtectedAndAuthDisjoint(AuthCodeError);
  }
}
