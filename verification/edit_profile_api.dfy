/**
 * The profile update endpoint (Backend/editprofile.py): the allowed image
 * extensions, the order of the input checks, the row update that touches the
 * image column only when a new image came with the request, and the
 * normalisation of the stored image path in the reply. The upload's random
 * name prefix is a parameter; the Users table is a map.
 */
module ProfileApi {
  import opened Common

  /** `ALLOWED_EXTENSIONS` */
  const AllowedExtensions: set<string> := {"jpg", "jpeg", "png"}

  /** `UPLOAD_FOLDER` */
  const UploadFolder: string := "uploads/profile_images"

  // ---------------------------------------------------------------------------
  // File names

  /** The position of the last '.' in `s`, if any. */
  function LastDot(s: string): (r: Option<nat>)
    ensures r.Some? ==> r.value < |s| && s[r.value] == '.' && forall k :: r.value < k < |s| ==> s[k] != '.'
    ensures r.None? ==> forall k :: 0 <= k < |s| ==> s[k] != '.'
    decreases |s|
  {
    if |s| == 0 then None
    else if s[|s| - 1] == '.' then Some(|s| - 1)
    else LastDot(s[..|s| - 1])
  }

  /** `allowed_file`: the name has a '.', and what follows the last one,
      lower-cased, is an allowed extension. */
  predicate AllowedFile(filename: string) {
    match LastDot(filename)
    case None => false
    case Some(i) => Lower(filename[i + 1..]) in AllowedExtensions
  }

  /** `'.' in filename`, and a dot with no dot after it is the last one. */
  lemma AllowedFileIff(filename: string)
    ensures AllowedFile(filename) <==>
      exists i | 0 <= i < |filename| ::
        filename[i] == '.' && (forall k :: i < k < |filename| ==> filename[k] != '.')
        && Lower(filename[i + 1..]) in AllowedExtensions
  {
    if exists i | 0 <= i < |filename| ::
         filename[i] == '.' && (forall k :: i < k < |filename| ==> filename[k] != '.')
         && Lower(filename[i + 1..]) in AllowedExtensions {
      var i :| 0 <= i < |filename| && filename[i] == '.' && (forall k :: i < k < |filename| ==> filename[k] != '.')
               && Lower(filename[i + 1..]) in AllowedExtensions;
      var d := LastDot(filename);
      assert d.Some?;
      assert d.value == i;
    }
  }

  /** For a name ending in '.' and a dot-free extension, that extension
      alone decides. */
  lemma ExtensionDecides(stem: string, ext: string)
    requires forall k :: 0 <= k < |ext| ==> ext[k] != '.'
    ensures AllowedFile(stem + "." + ext) <==> Lower(ext) in AllowedExtensions
  {
    var s := stem + "." + ext;
    var d := LastDot(s);
    assert s[|stem|] == '.';
    forall k | |stem| < k < |s| ensures s[k] != '.' {
      assert s[k] == ext[k - |stem| - 1];
    }
    assert d.Some? && d.value == |stem|;
    assert s[|stem| + 1..] == ext;
  }

  /** The error message offers gif, but a .gif file is refused; so is a name
      whose last extension is not an image and one without a dot, while upper
      case is accepted. */
  lemma AllowedFileExamples()
    ensures !AllowedFile("cat.gif")
    ensures !AllowedFile("jpg")
    ensures !AllowedFile("photo.png.exe")
    ensures AllowedFile("photo.JPG")
  {
    NonImagesRefused();
    NoDotRefused();
    UpperCaseAllowed();
  }

  /** A .gif file, and a file whose last extension is not an image even
      though an earlier one is. */
  lemma NonImagesRefused()
    ensures !AllowedFile("cat.gif") && !AllowedFile("photo.png.exe")
  {
    var stem, ext := "cat", "gif";
    ExtensionExample(stem, ext);
    assert stem + "." + ext == "cat.gif";
    var stem2, ext2 := "photo.png", "exe";
    ExtensionExample(stem2, ext2);
    assert stem2 + "." + ext2 == "photo.png.exe";
  }

  lemma NoDotRefused()
    ensures !AllowedFile("jpg")
  {
    var t := "jpg";
    assert forall k :: 0 <= k < |t| ==> t[k] != '.';
    assert LastDot(t).None?;
  }

  lemma UpperCaseAllowed()
    ensures AllowedFile("photo.JPG")
  {
    var stem, ext := "photo", "JPG";
    ExtensionExample(stem, ext);
    assert stem + "." + ext == "photo.JPG";
  }

  /** A three-letter extension after the last dot: allowed exactly when it
      lower-cases to an allowed extension. */
  lemma ExtensionExample(stem: string, ext: string)
    requires |ext| == 3 && ext[0] != '.' && ext[1] != '.' && ext[2] != '.'
    ensures AllowedFile(stem + "." + ext) <==> [LowerChar(ext[0]), LowerChar(ext[1]), LowerChar(ext[2])] in AllowedExtensions
  {
    ExtensionDecides(stem, ext);
    assert Lower(ext) == [LowerChar(ext[0]), LowerChar(ext[1]), LowerChar(ext[2])];
  }

  /** The text `int()` reads: digits with an optional sign. */
  ghost predicate IntText(t: string) {
    exists body :: |body| > 0 && AllDigits(body) && (t == body || t == "-" + body || t == "+" + body)
  }

  /** Digits with an optional leading sign, read as an integer. */
  function SignedDigits(t: string): (r: Option<int>)
    ensures r.Some? ==>
      exists body :: |body| > 0 && AllDigits(body) && (r.value == DigitsValue(body) as int || r.value == -(DigitsValue(body) as int))
  {
    var body := if |t| > 0 && (t[0] == '-' || t[0] == '+') then t[1..] else t;
    if |body| > 0 && AllDigits(body) then
      Some(if t[0] == '-' then -(DigitsValue(body) as int) else DigitsValue(body) as int)
    else None
  }

  /** Python `int(s)` on a text field: surrounding white space is allowed,
      then an optional sign and one or more decimal digits. */
  function PyInt(s: string): (r: Option<int>)
    ensures r.Some? ==>
      exists body :: |body| > 0 && AllDigits(body) && (r.value == DigitsValue(body) as int || r.value == -(DigitsValue(body) as int))
  {
    SignedDigits(PyStrip(s))
  }

  /** Text that reads as an integer is of the `int()` shape. */
  lemma SignedDigitsShape(t: string)
    requires SignedDigits(t).Some?
    ensures IntText(t)
  {
    var body := if |t| > 0 && (t[0] == '-' || t[0] == '+') then t[1..] else t;
    if t != body {
      assert t == [t[0]] + body;
      assert t == "-" + body || t == "+" + body;
    }
  }

  /** Text of the `int()` shape reads as an integer. */
  lemma ShapeSignedDigits(t: string)
    requires IntText(t)
    ensures SignedDigits(t).Some?
  {
    var b :| |b| > 0 && AllDigits(b) && (t == b || t == "-" + b || t == "+" + b);
    var body := if |t| > 0 && (t[0] == '-' || t[0] == '+') then t[1..] else t;
    if t == b {
      assert IsDigit(b[0]);
    }
    assert body == b;
  }

  /** `int()` succeeds exactly on stripped text of digits with an optional sign. */
  lemma PyIntIff(s: string)
    ensures PyInt(s).Some? <==> IntText(PyStrip(s))
  {
    var t := PyStrip(s);
    if SignedDigits(t).Some? {
      SignedDigitsShape(t);
    }
    if IntText(t) {
      ShapeSignedDigits(t);
    }
  }

  // ---------------------------------------------------------------------------
  // Stored image paths

  /** `path.replace('\\', '/')` */
  function Slashes(path: string): (r: string)
    ensures |r| == |path|
    ensures forall k :: 0 <= k < |r| ==> r[k] != '\\'
    ensures forall k :: 0 <= k < |r| && path[k] != '\\' ==> r[k] == path[k]
  {
    seq(|path|, k requires 0 <= k < |path| => if path[k] == '\\' then '/' else path[k])
  }

  /** The image URL the reply carries for a stored path: backslashes become
      '/', and a '/' is put in front unless there is one. */
  function NormalisePath(path: string): (r: string)
    ensures |r| > 0 && r[0] == '/'
    ensures forall k :: 0 <= k < |r| ==> r[k] != '\\'
    ensures r == Slashes(path) || r == "/" + Slashes(path)
  {
    var p := Slashes(path);
    if StartsWith(p, "/") then p else "/" + p
  }

  /** Normalising an already normalised path changes nothing. */
  lemma NormaliseIdempotent(path: string)
    ensures NormalisePath(NormalisePath(path)) == NormalisePath(path)
  {
    var r := NormalisePath(path);
    assert Slashes(r) == r;
  }

  // ---------------------------------------------------------------------------
  // The Users table and the endpoint

  datatype ProfileRow = ProfileRow(name: string, email: string, phone: string, imageUrl: Option<string>)

  /** The multipart request: the three form fields (`None` when missing) and
      the file name of the `profileImage` part (`None` when there is no such
      part). */
  datatype ProfileRequest = ProfileRequest(id: Option<string>, fullName: Option<string>, phone: Option<string>,
                                           upload: Option<string>)

  /** The `user` object of a successful reply. */
  datatype UserView = UserView(userId: int, name: string, email: string, phone: string, imageUrl: Option<string>)

  /** Status, the table afterwards, the path an upload was saved to (it is
      written before the later checks), and the user on success. */
  datatype ProfileReply = ProfileReply(status: int, rows: map<int, ProfileRow>, saved: Option<string>, user: Option<UserView>)

  predicate FieldsPresent(req: ProfileRequest) {
    IsTruthyText(req.id) && IsTruthyText(req.fullName) && IsTruthyText(req.phone)
  }

  /** A file part with a non-empty name. */
  predicate HasUpload(req: ProfileRequest) {
    IsTruthyText(req.upload)
  }

  /** Where an accepted upload is saved: the folder, then the random prefix
      and the client's file name. */
  function UploadPath(uuid: string, filename: string): string {
    UploadFolder + "/" + uuid + "_" + filename
  }

  /** The reply's view of a stored row. */
  function ViewOf(id: int, row: ProfileRow): (v: UserView)
    ensures v.imageUrl.Some? <==> IsTruthyText(row.imageUrl)
    ensures v.imageUrl.Some? ==> v.imageUrl.value == NormalisePath(row.imageUrl.value)
  {
    UserView(id, row.name, row.email, row.phone,
             if IsTruthyText(row.imageUrl) then Some(NormalisePath(row.imageUrl.value)) else None)
  }

  /** How the body of POST /api/update-profile ends: the reply it returns
      and whether it got as far as opening a cursor. Every refusal by the
      checks returns 400 before the cursor is opened. */
  datatype BodyExit = BodyExit(reply: ProfileReply, cursorOpened: bool)

  /** The handler's body up to its `finally` clause. */
  function ProfileBody(rows: map<int, ProfileRow>, req: ProfileRequest, uuid: string): (e: BodyExit)
    ensures e.reply.status in {200, 400, 404}
    ensures e.reply.status == 400 <==> !e.cursorOpened
    ensures e.reply.status == 400 <==>
      !FieldsPresent(req)
      || (HasUpload(req) && !AllowedFile(req.upload.value))
      || PyInt(req.id.value).None?
      || |PyStrip(req.fullName.value)| < 2
      || !TenDigits(req.phone.value)
  {
    if !FieldsPresent(req) then BodyExit(ProfileReply(400, rows, None, None), false)
    else if HasUpload(req) && !AllowedFile(req.upload.value) then BodyExit(ProfileReply(400, rows, None, None), false)
    else
      var saved := if HasUpload(req) then Some(UploadPath(uuid, req.upload.value)) else None;
      var id := PyInt(req.id.value);
      if id.None? then BodyExit(ProfileReply(400, rows, saved, None), false)
      else if |PyStrip(req.fullName.value)| < 2 then BodyExit(ProfileReply(400, rows, saved, None), false)
      else if !TenDigits(req.phone.value) then BodyExit(ProfileReply(400, rows, saved, None), false)
      else if id.value !in rows then BodyExit(ProfileReply(404, rows, saved, None), true)
      else
        var prev := rows[id.value];
        var row := ProfileRow(req.fullName.value, prev.email, req.phone.value,
                              if saved.Some? then saved else prev.imageUrl);
        var rows' := rows[id.value := row];
        BodyExit(ProfileReply(200, rows', saved, Some(ViewOf(id.value, row))), true)
  }

  /** The `finally` clause closes the cursor whenever the name is bound, and
      it is bound to `None` from the start: when the body returned before
      opening one, closing it raises, the exception replaces the pending
      return and Flask answers 500. */
  function Finally(e: BodyExit): (r: ProfileReply)
    ensures r.status == (if e.cursorOpened then e.reply.status else 500)
    ensures r.rows == e.reply.rows && r.saved == e.reply.saved && r.user == e.reply.user
  {
    if e.cursorOpened then e.reply else e.reply.(status := 500)
  }

  /** POST /api/update-profile, `finally` clause included: each refusal
      the checks meant as 400 reaches the client as 500. */
  function UpdateProfile(rows: map<int, ProfileRow>, req: ProfileRequest, uuid: string): (r: ProfileReply)
    ensures r.status in {200, 404, 500}
    ensures r.status == 500 <==>
      !FieldsPresent(req)
      || (HasUpload(req) && !AllowedFile(req.upload.value))
      || PyInt(req.id.value).None?
      || |PyStrip(req.fullName.value)| < 2
      || !TenDigits(req.phone.value)
    ensures r.status == 404 <==> r.status != 500 && PyInt(req.id.value).value !in rows
    ensures r.saved.Some? <==> FieldsPresent(req) && HasUpload(req) && AllowedFile(req.upload.value)
    ensures r.saved.Some? ==> r.saved.value == UploadPath(uuid, req.upload.value)
    ensures r.status != 200 ==> r.rows == rows && r.user.None?
    ensures r.status == 200 ==>
      var id := PyInt(req.id.value).value;
      && id in rows
      && r.rows == rows[id := ProfileRow(req.fullName.value, rows[id].email, req.phone.value,
                                         if r.saved.Some? then r.saved else rows[id].imageUrl)]
      && r.user == Some(ViewOf(id, r.rows[id]))
  {
    Finally(ProfileBody(rows, req, uuid))
  }

  /** Every 400 the body returns becomes 500, and no other reply changes:
      the client never sees a 400 from this endpoint. */
  lemma RefusalsBecome500(rows: map<int, ProfileRow>, req: ProfileRequest, uuid: string)
    ensures var e := ProfileBody(rows, req, uuid);
      var r := UpdateProfile(rows, req, uuid);
      && (e.reply.status == 400 <==> r.status == 500)
      && (e.reply.status != 400 ==> r == e.reply)
      && r.status != 400
  {
  }

  // ---------------------------------------------------------------------------
  // Properties

  /** Without a new image the image column keeps its value; with one it
      points at the saved upload. Only the addressed user changes. */
  lemma ImageColumnOnlyOnUpload(rows: map<int, ProfileRow>, req: ProfileRequest, uuid: string)
    ensures var r := UpdateProfile(rows, req, uuid);
      r.status == 200 ==>
        var id := PyInt(req.id.value).value;
        && (!HasUpload(req) ==> r.rows[id].imageUrl == rows[id].imageUrl)
        && (HasUpload(req) ==> r.rows[id].imageUrl == Some(UploadPath(uuid, req.upload.value)))
        && r.rows.Keys == rows.Keys
        && (forall other :: other in rows && other != id ==> r.rows[other] == rows[other])
  {
    var r := UpdateProfile(rows, req, uuid);
    if r.status == 200 {
      var id := PyInt(req.id.value).value;
      var row := ProfileRow(req.fullName.value, rows[id].email, req.phone.value,
                            if r.saved.Some? then r.saved else rows[id].imageUrl);
      assert r.rows == rows[id := row];
      assert r.rows[id] == row;
    }
  }

  /** An accepted image is saved before the id is read: a request whose id is
      not an integer is refused (with 500, see `Finally`), yet its file was
      written. */
  lemma BadIdStillSaves(rows: map<int, ProfileRow>, req: ProfileRequest, uuid: string)
    requires FieldsPresent(req) && HasUpload(req) && AllowedFile(req.upload.value)
    requires PyInt(req.id.value).None?
    ensures var r := UpdateProfile(rows, req, uuid);
      r.status == 500 && r.saved == Some(UploadPath(uuid, req.upload.value))
  {
  }

  /** For instance, the id "x" with any .png upload, whatever the name and phone. */
  lemma UploadSavedThoughRefused(rows: map<int, ProfileRow>, uuid: string, name: string, phone: string, stem: string)
    requires name != "" && phone != ""
    ensures var r := UpdateProfile(rows, ProfileRequest(Some("x"), Some(name), Some(phone), Some(stem + ".png")), uuid);
      r.status == 500 && r.saved == Some(UploadPath(uuid, stem + ".png"))
  {
    var ext := "png";
    ExtensionExample(stem, ext);
    assert stem + "." + ext == stem + ".png";
    LetterIsNotInt();
    var req := ProfileRequest(Some("x"), Some(name), Some(phone), Some(stem + "." + ext));
    BadIdStillSaves(rows, req, uuid);
  }

  lemma LetterIsNotInt()
    ensures PyInt("x").None?
  {
    assert TrimLeft("x", IsPySpace) == "x";
    assert TrimRight("x", IsPySpace) == "x";
    assert PyStrip("x") == "x";
  }

  /** The image URL in a successful reply starts with '/' and has no
      backslash, whatever the stored path looked like. */
  lemma ReplyImageNormalised(rows: map<int, ProfileRow>, req: ProfileRequest, uuid: string)
    ensures var r := UpdateProfile(rows, req, uuid);
      r.status == 200 && r.user.value.imageUrl.Some? ==>
        var u := r.user.value.imageUrl.value;
        |u| > 0 && u[0] == '/' && forall k :: 0 <= k < |u| ==> u[k] != '\\'
  {
  }
}
