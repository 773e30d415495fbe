/** The client-side logic of web/app/profile/page.tsx: the display-name validation shown
    before saving, and the checks and centre crop applied to a chosen avatar file. */
module ProfilePage {
  import opened Wrappers
  import opened Text
  import opened JsonData
  import opened Http
  import ProfileRoute
  import AvatarRoute
  import ApiAuth

  const LengthMessage: string := "长度需在2-32字符"
  const CharsetMessage: string := "仅允许字母、数字、空格、._-"
  const TypeAlert: string := "仅支持 JPG/PNG"
  const SizeAlert: string := "图片大小不超过 2MB"
  const UploadFailed: string := "上传失败"

  /** `validateName`: the length message first, then the charset message, else `''`. */
  function ValidateName(isLetter: char -> bool, v: string): (r: string)
    ensures r == "" || r == LengthMessage || r == CharsetMessage
    ensures r == LengthMessage <==> !(2 <= Utf16Length(Trim(v)) <= 32)
  {
    var val := Trim(v);
    if Utf16Length(val) < 2 || Utf16Length(val) > 32 then LengthMessage
    else if !(|val| > 0 && ProfileRoute.AllNameChars(isLetter, val)) then CharsetMessage
    else ""
  }

  /** The client accepts exactly the names the server accepts. */
  lemma ClientAgreesWithServer(isLetter: char -> bool, v: string)
    ensures ValidateName(isLetter, v) == "" <==> ProfileRoute.IsDisplayNameValid(isLetter, JStr(v))
  {
  }

  /** The charset message appears only for a name of allowed length with a character
      outside letters, digits, space and `_.-`. */
  lemma CharsetMessageMeaning(isLetter: char -> bool, v: string)
    ensures ValidateName(isLetter, v) == CharsetMessage <==>
            2 <= Utf16Length(Trim(v)) <= 32 &&
            exists i :: 0 <= i < |Trim(v)| && !ProfileRoute.NameChar(isLetter, Trim(v)[i])
  {
    var val := Trim(v);
  }

  /** What `saveName` does: the message shown, and when it is empty the body posted and
      the name then shown locally (on an ok response). */
  datatype SaveStep = SaveStep(error: string, posted: Option<string>, shown: Option<string>)

  function SaveName(isLetter: char -> bool, nameInput: string, responseOk: bool): (r: SaveStep)
    ensures r.error == ValidateName(isLetter, nameInput)
    ensures r.posted.Some? <==> r.error == ""
    ensures r.posted.Some? ==> r.posted.value == nameInput
    ensures r.shown.Some? <==> r.posted.Some? && responseOk
  {
    var err := ValidateName(isLetter, nameInput);
    if err != "" then SaveStep(err, None, None)
    else SaveStep(err, Some(nameInput), if responseOk then Some(nameInput) else None)
  }

  /** The page posts and shows the untrimmed input while the server stores its trimmed
      form, so a name typed with surrounding spaces is shown with them until the next
      load. */
  lemma ShownIsUntrimmed(isLetter: char -> bool, user: ApiAuth.User, v: string)
    requires ValidateName(isLetter, v) == ""
    ensures var s := SaveName(isLetter, v, true);
            var o := ProfileRoute.Post(isLetter, ApiAuth.Authenticated(user),
                                       Some(JObj([("display_name", JStr(v))])), None);
            s.shown == Some(v) && o.write == Some(ProfileRoute.NameWrite(user.id, Trim(v)))
  {
    ClientAgreesWithServer(isLetter, v);
    ProfileRoute.PostStoresTrimmed(isLetter, user, JObj([("display_name", JStr(v))]), v, None);
  }

  /** The square crop of `onFileChange`: side `min(w, h)`, offsets `floor((w - size) / 2)`
      and `floor((h - size) / 2)`. */
  datatype CropBox = CropBox(size: nat, sx: nat, sy: nat)

  function Crop(w: nat, h: nat): (c: CropBox)
    ensures c.size == if w <= h then w else h
    ensures c.sx + c.size <= w && c.sy + c.size <= h
    ensures c.sx == 0 || c.sy == 0
    ensures 2 * c.sx <= w - c.size <= 2 * c.sx + 1
    ensures 2 * c.sy <= h - c.size <= 2 * c.sy + 1
  {
    var size := if w <= h then w else h;
    CropBox(size, (w - size) / 2, (h - size) / 2)
  }

  /** `'avatar.' + ext`, the name given to the uploaded blob. */
  function UploadName(mime: string): (r: string)
    ensures r == "avatar.png" <==> Contains(mime, "png")
    ensures r == "avatar.png" || r == "avatar.jpg"
  {
    var ext := AvatarRoute.Extension(mime);
    assert ("avatar." + ext)[7..] == ext;
    "avatar." + ext
  }

  /** What `onFileChange` does with the chosen file and the loaded image's size. */
  datatype FileStep = NoFile | Alert(message: string) | Upload(crop: CropBox, name: string)

  function FileChange(file: Option<AvatarRoute.FileInfo>, w: nat, h: nat): (r: FileStep)
    ensures file.None? <==> r.NoFile?
    ensures r.Upload? ==> AvatarRoute.IsAcceptedType(file.value.mime) && AvatarRoute.IsAcceptedSize(file.value.size)
    ensures r.Upload? ==> r.crop == Crop(w, h) && r.name == UploadName(file.value.mime)
    ensures r.Alert? ==> r.message == (if AvatarRoute.IsAcceptedType(file.value.mime) then SizeAlert else TypeAlert)
  {
    match file
    case None => NoFile
    case Some(f) =>
      if !AvatarRoute.IsAcceptedType(f.mime) then Alert(TypeAlert)
      else if !AvatarRoute.IsAcceptedSize(f.size) then Alert(SizeAlert)
      else Upload(Crop(w, h), UploadName(f.mime))
  }

  /** The page and the avatar endpoint apply the same type and size rules to a file. */
  lemma SameRulesAsServer(f: AvatarRoute.FileInfo, w: nat, h: nat)
    ensures FileChange(Some(f), w, h).Upload? <==>
            AvatarRoute.Check(Some(AvatarRoute.Form(Some(AvatarRoute.FileValue(f))))).Success?
  {
  }

  /** After the upload: `res.ok` shows `j.avatar_url`, otherwise `j.error || '上传失败'` is
      alerted. */
  datatype UploadStep = ShowAvatar(url: Option<Json>) | UploadAlert(message: Json)

  function AfterUpload(res: Response): (r: UploadStep)
    ensures r.ShowAvatar? <==> 200 <= res.status <= 299
    ensures r.UploadAlert? && !TruthyOpt(Get(res.body, "error")) ==> r.message == JStr(UploadFailed)
  {
    if 200 <= res.status <= 299 then ShowAvatar(Get(res.body, "avatar_url"))
    else UploadAlert(Or(Get(res.body, "error"), JStr(UploadFailed)))
  }

  /** An error from the endpoint is alerted with its own message; a successful upload
      shows the URL the endpoint wrote to the profile. */
  lemma UploadRoundTrip(user: ApiAuth.User, f: AvatarRoute.FileInfo, uploadError: Option<string>, publicUrl: Option<string>)
    requires AvatarRoute.IsAcceptedType(f.mime) && AvatarRoute.IsAcceptedSize(f.size)
    ensures var o := AvatarRoute.Post(ApiAuth.Authenticated(user), Some(AvatarRoute.Form(Some(AvatarRoute.FileValue(f)))), uploadError, publicUrl);
            match uploadError
            case Some(msg) => AfterUpload(o.response) == UploadAlert(Or(Some(JStr(msg)), JStr(UploadFailed)))
            case None => AfterUpload(o.response) == ShowAvatar(Some(JStr(o.avatarUrl.value)))
  {
    AvatarRoute.AvatarUrlIsReturned(user, f, publicUrl);
    if uploadError.None? {
      var url := if publicUrl.Some? && publicUrl.value != "" then publicUrl.value else AvatarRoute.StoragePath(user.id, f.mime);
      var es := [("ok", JBool(true)), ("avatar_url", JStr(url))];
      assert |es[0].0| != |"avatar_url"|;
      assert es[0].0 != "avatar_url";
      assert es[1..] == [("avatar_url", JStr(url))];
      assert Lookup(es[1..], "avatar_url") == Some(JStr(url));
      assert Lookup(es, "avatar_url") == Lookup(es[1..], "avatar_url");
      assert Get(JObj(es), "avatar_url") == Some(JStr(url));
    }
  }
}
