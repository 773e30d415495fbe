/** The `POST` handler of web/app/api/profile/avatar/route.ts: a chain of checks on the
    uploaded form, then the storage path, the upload and the profile's `avatar_url`. */
module AvatarRoute {
  import opened Wrappers
  import opened Text
  import opened JsonData
  import opened Http
  import opened ApiAuth

  const MaxAvatarBytes: nat := 2 * 1024 * 1024
  const AcceptedTypes: seq<string> := ["image/png", "image/jpeg", "image/jpg"]

  /** `/^image\/(png|jpeg|jpg)$/i`: case-insensitive, and only ASCII letters fold (the
      flag without `u` never maps a non-ASCII character onto an ASCII one). */
  predicate IsAcceptedType(mime: string) {
    ToLower(mime) in AcceptedTypes
  }

  /** `file.size > 2 * 1024 * 1024` is the rejection, so exactly 2 MiB passes. */
  predicate IsAcceptedSize(size: nat) {
    size <= MaxAvatarBytes
  }

  /** The extension chosen by the case-sensitive `includes('png')`. */
  function Extension(mime: string): (r: string)
    ensures r == "png" || r == "jpg"
    ensures r == "png" <==> Contains(mime, "png")
  {
    if Contains(mime, "png") then "png" else "jpg"
  }

  /** `${user.id}/avatar.${ext}` */
  function StoragePath(userId: string, mime: string): string {
    userId + "/avatar." + Extension(mime)
  }

  datatype FileInfo = FileInfo(mime: string, size: nat)

  /** What `form.get('file')` yields: a file, or a plain text field. */
  datatype FormValue = FileValue(file: FileInfo) | TextValue(text: string)

  /** The parsed form (None when `formData()` throws) holds at most one `file` entry. */
  datatype Form = Form(file: Option<FormValue>)

  /** The response, the path uploaded to, and the `avatar_url` written to the profile. */
  datatype AvatarOutcome = AvatarOutcome(response: Response, upload: Option<string>, avatarUrl: Option<string>)

  /** The checks in order; a text field has no `type`, and `test(undefined)` tests the
      string `undefined`, which is not an accepted type. */
  function Check(form: Option<Form>): (r: Result<FileInfo, string>)
    ensures r.Success? ==> IsAcceptedType(r.value.mime) && IsAcceptedSize(r.value.size)
  {
    if form.None? then Failure("Invalid form data")
    else
      match form.value.file
      case None => Failure("Missing file")
      case Some(TextValue(t)) => if t == "" then Failure("Missing file") else Failure("Invalid file type")
      case Some(FileValue(f)) =>
        if !IsAcceptedType(f.mime) then Failure("Invalid file type")
        else if !IsAcceptedSize(f.size) then Failure("File too large")
        else Success(f)
  }

  /** `POST`, with the upload error and `getPublicUrl`'s URL as parameters; the error of
      the profile upsert is ignored by the handler. */
  function Post(auth: AuthResult, form: Option<Form>, uploadError: Option<string>, publicUrl: Option<string>): (o: AvatarOutcome)
    ensures auth.Rejected? ==> o == AvatarOutcome(AuthGuard(auth).value, None, None)
    ensures o.avatarUrl.Some? ==> o.upload.Some? && uploadError.None? && o.response.status == 200
    ensures o.upload.Some? ==> auth.Authenticated? && Check(form).Success? &&
                               o.upload.value == StoragePath(auth.user.id, Check(form).value.mime)
  {
    if AuthGuard(auth).Some? then AvatarOutcome(AuthGuard(auth).value, None, None)
    else
      match Check(form)
      case Failure(msg) => AvatarOutcome(Error(400, msg), None, None)
      case Success(f) =>
        var path := StoragePath(auth.user.id, f.mime);
        match uploadError
        case Some(msg) => AvatarOutcome(Error(500, msg), Some(path), None)
        case None =>
          var url := if publicUrl.Some? && publicUrl.value != "" then publicUrl.value else path;
          AvatarOutcome(Ok(JObj([("ok", JBool(true)), ("avatar_url", JStr(url))])), Some(path), Some(url))
  }

  /** The accepted types are the three spellings in any ASCII case. */
  lemma AcceptedSpellings()
    ensures IsAcceptedType("image/png") && IsAcceptedType("IMAGE/PNG") && IsAcceptedType("Image/Jpeg")
    ensures !IsAcceptedType("image/gif") && !IsAcceptedType("image/png ")
  {
    assert ToLower("image/gif")[6] == 'g';
    assert |ToLower("image/png ")| == 10 && ToLower("image/png ")[6] == 'p';
    assert ToLower("IMAGE/PNG") == "image/png";
    assert ToLower("Image/Jpeg") == "image/jpeg";
    assert ToLower("image/png") == "image/png";
  }

  /** Exactly 2 MiB is accepted, one byte more is not. */
  lemma SizeBoundary()
    ensures IsAcceptedSize(2097152) && !IsAcceptedSize(2097153)
  {
  }

  /** `IMAGE/PNG` passes the type check but the case-sensitive `includes` stores it under
      `.jpg`. */
  lemma UpperCasePngStoredAsJpg(userId: string)
    ensures IsAcceptedType("IMAGE/PNG")
    ensures StoragePath(userId, "IMAGE/PNG") == userId + "/avatar.jpg"
  {
    assert ToLower("IMAGE/PNG") == "image/png";
    UpperCaseHasNoPng();
    JpgPath(userId, "IMAGE/PNG");
  }

  lemma JpgPath(userId: string, mime: string)
    requires !Contains(mime, "png")
    ensures StoragePath(userId, mime) == userId + "/avatar.jpg"
  {
    assert "/avatar." + "jpg" == "/avatar.jpg";
  }

  lemma UpperCaseHasNoPng()
    ensures !Contains("IMAGE/PNG", "png")
  {
    var s := "IMAGE/PNG";
    assert s == ['I', 'M', 'A', 'G', 'E', '/', 'P', 'N', 'G'];
    forall i | 0 <= i < |s|
      ensures s[i] != 'p'
    {
    }
    assert "png"[0] == 'p';
    assert 'p' !in s;
    ContainsNeedsHead(s, "png");
  }

  /** The first failing check decides: a form without a file is `Missing file` whatever
      else is wrong, a bad type wins over a bad size. */
  lemma FirstFailureDecides(f: FileInfo)
    ensures Check(None) == Failure("Invalid form data")
    ensures Check(Some(Form(None))) == Failure("Missing file")
    ensures !IsAcceptedType(f.mime) ==> Check(Some(Form(Some(FileValue(f))))) == Failure("Invalid file type")
    ensures IsAcceptedType(f.mime) && !IsAcceptedSize(f.size) ==> Check(Some(Form(Some(FileValue(f))))) == Failure("File too large")
  {
  }

  /** After a successful upload, the URL written to the profile is the one returned:
      the public URL when there is one, the storage path otherwise. */
  lemma AvatarUrlIsReturned(user: User, f: FileInfo, publicUrl: Option<string>)
    requires IsAcceptedType(f.mime) && IsAcceptedSize(f.size)
    ensures var o := Post(Authenticated(user), Some(Form(Some(FileValue(f)))), None, publicUrl);
            var url := if publicUrl.Some? && publicUrl.value != "" then publicUrl.value else StoragePath(user.id, f.mime);
            o.avatarUrl == Some(url) && o.response == Ok(JObj([("ok", JBool(true)), ("avatar_url", JStr(url))]))
  {
  }

  /** An upload error is a 500 and the profile is not touched. */
  lemma UploadErrorLeavesProfile(auth: AuthResult, form: Option<Form>, msg: string, publicUrl: Option<string>)
    requires auth.Authenticated? && Check(form).Success?
    ensures Post(auth, form, Some(msg), publicUrl) ==
            AvatarOutcome(Error(500, msg), Some(StoragePath(auth.user.id, Check(form).value.mime)), None)
  {
  }
}
