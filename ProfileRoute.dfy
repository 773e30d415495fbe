/** web/app/api/profile/route.ts: the server's display-name rule and the `GET` / `POST`
    handlers of the profile, with the `profiles` table reached through parameters. */
module ProfileRoute {
  import opened Wrappers
  import opened Text
  import opened JsonData
  import opened Http
  import opened ApiAuth

  const MinNameLength: nat := 2
  const MaxNameLength: nat := 32
  const InvalidName: string := "Invalid display name"

  /** One character of `[\p{L}0-9 _.-]`; `isLetter` stands for the Unicode letter class. */
  predicate NameChar(isLetter: char -> bool, c: char) {
    isLetter(c) || IsDigit(c) || c == ' ' || c == '_' || c == '.' || c == '-'
  }

  predicate AllNameChars(isLetter: char -> bool, s: string) {
    forall i :: 0 <= i < |s| ==> NameChar(isLetter, s[i])
  }

  /** `isDisplayNameValid`: a string whose trimmed form has 2 to 32 UTF-16 units, all of
      them letters, digits, spaces, `_`, `.` or `-`. */
  predicate IsDisplayNameValid(isLetter: char -> bool, name: Json) {
    name.JStr? &&
    var v := Trim(name.s);
    MinNameLength <= Utf16Length(v) <= MaxNameLength && |v| > 0 && AllNameChars(isLetter, v)
  }

  /** The rule spelled out: non-strings fail, and a string passes exactly when its
      trimmed form has an allowed length and only allowed characters. */
  lemma DisplayNameRule(isLetter: char -> bool, name: Json)
    ensures !name.JStr? ==> !IsDisplayNameValid(isLetter, name)
    ensures name.JStr? ==>
              (IsDisplayNameValid(isLetter, name) <==>
               2 <= Utf16Length(Trim(name.s)) <= 32 && AllNameChars(isLetter, Trim(name.s)))
  {
  }

  /** Validity does not change under trimming. */
  lemma ValidUnderTrim(isLetter: char -> bool, s: string)
    ensures IsDisplayNameValid(isLetter, JStr(s)) <==> IsDisplayNameValid(isLetter, JStr(Trim(s)))
  {
    TrimIdempotent(s);
  }

  /** The row `POST` writes to `profiles`. */
  datatype NameWrite = NameWrite(userId: string, displayName: string)

  datatype PostOutcome = PostOutcome(response: Response, write: Option<NameWrite>)

  /** `POST`: the body (None when it does not parse, which the handler reads as `{}`),
      and the error of the upsert, if any. */
  function Post(isLetter: char -> bool, auth: AuthResult, body: Option<Json>, upsertError: Option<string>): (o: PostOutcome)
    ensures auth.Rejected? ==> o == PostOutcome(AuthGuard(auth).value, None)
    ensures o.write.Some? ==> auth.Authenticated? && o.write.value.userId == auth.user.id
    ensures o.response.status == 200 <==> o.write.Some? && upsertError.None?
  {
    if AuthGuard(auth).Some? then PostOutcome(AuthGuard(auth).value, None)
    else
      var b := body.GetOr(JObj([]));
      if b.JNull? then PostOutcome(Uncaught, None)
      else
        var raw := Or(Get(b, "display_name"), JStr(""));
        if !raw.JStr? then PostOutcome(Uncaught, None)
        else
          var name := Trim(raw.s);
          if !IsDisplayNameValid(isLetter, JStr(name)) then PostOutcome(Error(400, InvalidName), None)
          else
            match upsertError
            case Some(msg) => PostOutcome(Error(500, msg), Some(NameWrite(auth.user.id, name)))
            case None => PostOutcome(Ok(JObj([("ok", JBool(true))])), Some(NameWrite(auth.user.id, name)))
  }

  /** Only a valid name ever reaches the table. */
  lemma PostWritesOnlyValid(isLetter: char -> bool, auth: AuthResult, body: Option<Json>, upsertError: Option<string>)
    ensures Post(isLetter, auth, body, upsertError).write.Some? ==>
              IsDisplayNameValid(isLetter, JStr(Post(isLetter, auth, body, upsertError).write.value.displayName))
  {
  }

  /** A valid name is stored trimmed, and the trimmed name is its own trim. */
  lemma PostStoresTrimmed(isLetter: char -> bool, user: User, body: Json, raw: string, upsertError: Option<string>)
    requires body.JObj? && Get(body, "display_name") == Some(JStr(raw)) && raw != ""
    requires IsDisplayNameValid(isLetter, JStr(Trim(raw)))
    ensures Post(isLetter, Authenticated(user), Some(body), upsertError).write == Some(NameWrite(user.id, Trim(raw)))
    ensures Trim(Trim(raw)) == Trim(raw)
  {
    assert Some(body).GetOr(JObj([])) == body;
    assert Or(Get(body, "display_name"), JStr("")) == JStr(raw);
    TrimIdempotent(raw);
  }

  /** An invalid name is a 400 with nothing written. */
  lemma PostRejectsInvalid(isLetter: char -> bool, user: User, body: Json, raw: string, upsertError: Option<string>)
    requires body.JObj? && Get(body, "display_name") == Some(JStr(raw)) && raw != ""
    requires !IsDisplayNameValid(isLetter, JStr(Trim(raw)))
    ensures Post(isLetter, Authenticated(user), Some(body), upsertError) == PostOutcome(Error(400, InvalidName), None)
  {
    assert Some(body).GetOr(JObj([])) == body;
    assert Or(Get(body, "display_name"), JStr("")) == JStr(raw);
  }

  /** `GET`: the profile row (None when there is none) or the error of the select. */
  function GetProfile(auth: AuthResult, row: Result<Option<Json>, string>): (r: Response)
    ensures auth.Rejected? ==> r == AuthGuard(auth).value
    ensures auth.Authenticated? && row.Failure? ==> r == Error(500, row.error)
    ensures auth.Authenticated? && row.Success? && TruthyOpt(row.value) ==> r == Ok(row.value.value)
    ensures auth.Authenticated? && row.Success? && !TruthyOpt(row.value) ==> r == Ok(JObj([]))
  {
    if AuthGuard(auth).Some? then AuthGuard(auth).value
    else
      match row
      case Failure(msg) => Error(500, msg)
      case Success(data) => Ok(Or(data, JObj([])))
  }
}
