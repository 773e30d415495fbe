/** `authenticateRequest` of web/src/lib/api-auth.ts: the `Bearer` header is parsed here,
    the token lookup of the auth service is a parameter. */
module ApiAuth {
  import opened Wrappers
  import opened Text
  import opened JsonData
  import opened Http

  /** A user as the auth service reports it; the handlers use only the id. */
  datatype User = User(id: string)

  /** What `supabase.auth.getUser()` reports for a token. */
  datatype UserLookup = LookupError | NoUser | Found(user: User)

  /** `{ user, error }`: exactly one of the two is non-null, so it is one of two cases. */
  datatype AuthResult = Authenticated(user: User) | Rejected(error: string)

  const BearerPrefix: string := "Bearer "
  const MissingHeader: string := "Missing or invalid authorization header"
  const InvalidToken: string := "Invalid token"

  /** The token in an `authorization` header: the header minus its first seven
      characters, when it is present, non-empty and begins with `Bearer `. */
  function BearerToken(header: Option<string>): (r: Option<string>)
    ensures r.Some? <==> header.Some? && StartsWith(header.value, BearerPrefix)
    ensures r.Some? ==> BearerPrefix + r.value == header.value
  {
    if header.Some? && header.value != "" && StartsWith(header.value, BearerPrefix) then
      assert header.value == header.value[..7] + header.value[7..];
      Some(header.value[7..])
    else None
  }

  /** `authenticateRequest`, with `getUser` standing for the auth service's lookup of a
      token. */
  function Authenticate(header: Option<string>, getUser: string -> UserLookup): (r: AuthResult)
    ensures BearerToken(header).None? ==> r == Rejected(MissingHeader)
    ensures BearerToken(header).Some? ==>
              match getUser(BearerToken(header).value)
              case Found(u) => r == Authenticated(u)
              case _ => r == Rejected(InvalidToken)
  {
    match BearerToken(header)
    case None => Rejected(MissingHeader)
    case Some(token) =>
      match getUser(token)
      case Found(u) => Authenticated(u)
      case _ => Rejected(InvalidToken)
  }

  /** The guard every route using `authenticateRequest` starts with: a rejection becomes
      a 401 carrying the error, or `Unauthorized` when the error is empty. */
  function AuthGuard(auth: AuthResult): (r: Option<Response>)
    ensures r.None? <==> auth.Authenticated?
    ensures r.Some? ==> r.value.status == 401
  {
    match auth
    case Authenticated(_) => None
    case Rejected(e) => Some(Error(401, if e != "" then e else "Unauthorized"))
  }

  /** Any token prefixed with `Bearer ` is recovered exactly. */
  lemma BearerRoundTrip(token: string)
    ensures BearerToken(Some(BearerPrefix + token)) == Some(token)
  {
    assert (BearerPrefix + token)[..7] == BearerPrefix;
  }

  /** The prefix test is exact and case-sensitive. */
  lemma BearerIsExact()
    ensures BearerToken(None) == None
    ensures BearerToken(Some("")) == None
    ensures BearerToken(Some("Bearer")) == None
    ensures BearerToken(Some("bearer abc")) == None
    ensures BearerToken(Some("Basic abc")) == None
  {
    assert "bearer abc"[..7][0] != BearerPrefix[0];
    assert "Basic abc"[..7][1] != BearerPrefix[1];
  }

  /** Every rejection carries one of the two messages, and both are non-empty. */
  lemma RejectionMessages(header: Option<string>, getUser: string -> UserLookup)
    ensures Authenticate(header, getUser).Rejected? ==>
              Authenticate(header, getUser).error in {MissingHeader, InvalidToken}
    ensures AuthGuard(Authenticate(header, getUser)).Some? ==>
              AuthGuard(Authenticate(header, getUser)).value == Error(401, Authenticate(header, getUser).error)
  {
  }
}
