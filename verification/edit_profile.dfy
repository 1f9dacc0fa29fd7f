/**
 * The profile editing screen (SmartHotel/src/Screens/EditProfile.js): the
 * full-name and phone rules, the whole-form check, revalidation while
 * typing, which image goes with the upload, which URI the avatar shows, and
 * what the screen stores after a successful update. Related to the endpoint
 * in module ProfileApi.
 */
module EditProfile {
  import opened Common
  import ProfileApi

  /** `localIPS` */
  const LocalIps: string := "http://192.168.18.50:8082"

  /** `defaultProfileImage` */
  const DefaultProfileImage: string := "/Uploads/profile_images/default.jpg"

  const LocalFilePrefix: string := "file://"

  /** `^[A-Za-z\s]{2,}$` */
  predicate NamePattern(s: string) {
    |s| >= 2 && forall k :: 0 <= k < |s| ==> IsAsciiLetter(s[k]) || IsJsSpace(s[k])
  }

  /** `validateFullName` */
  function ValidateFullName(fullName: string): (error: string)
    ensures error == "" <==> NamePattern(fullName)
    ensures fullName == [] ==> error == "Full name is required"
  {
    if fullName == "" then "Full name is required"
    else if !NamePattern(fullName) then "Full name must contain only letters and spaces, min 2 characters"
    else ""
  }

  /** `validatePhone` */
  function ValidatePhone(phone: string): (error: string)
    ensures error == "" <==> TenDigits(phone)
    ensures phone == [] ==> error == "Phone number is required"
  {
    if phone == "" then "Phone number is required"
    else if !TenDigits(phone) then "Phone number must be exactly 10 digits"
    else ""
  }

  /** The `errors` state. */
  datatype FieldErrors = FieldErrors(name: string, phone: string)

  /** `validateForm`: both fields are checked and both errors recorded. */
  function ValidateForm(name: string, phone: string): (r: (bool, FieldErrors))
    ensures r.0 <==> NamePattern(name) && TenDigits(phone)
    ensures r.1.name == ValidateFullName(name) && r.1.phone == ValidatePhone(phone)
  {
    var nameError := ValidateFullName(name);
    var phoneError := ValidatePhone(phone);
    (nameError == "" && phoneError == "", FieldErrors(nameError, phoneError))
  }

  /** Typing in the name field. */
  function OnNameChange(errors: FieldErrors, text: string): (r: FieldErrors)
    ensures r.phone == errors.phone
    ensures r.name == "" <==> NamePattern(text)
  {
    errors.(name := ValidateFullName(text))
  }

  /** Typing in the phone field. */
  function OnPhoneChange(errors: FieldErrors, text: string): (r: FieldErrors)
    ensures r.name == errors.name
    ensures r.phone == "" <==> TenDigits(text)
  {
    errors.(phone := ValidatePhone(text))
  }

  /** A freshly picked image (a local `file://` URI) rather than a stored path. */
  predicate IsLocalFile(profileImage: Option<string>) {
    IsTruthyText(profileImage) && StartsWith(profileImage.value, LocalFilePrefix)
  }

  /** The URI the avatar shows: a local file as is, a stored path behind the
      server's address, and the default picture when there is no image. */
  function ImageUri(profileImage: Option<string>): (uri: string)
    ensures IsLocalFile(profileImage) ==> uri == profileImage.value
    ensures IsTruthyText(profileImage) && !IsLocalFile(profileImage) ==> uri == LocalIps + profileImage.value
    ensures !IsTruthyText(profileImage) ==> uri == LocalIps + DefaultProfileImage
  {
    if IsTruthyText(profileImage) then
      if StartsWith(profileImage.value, LocalFilePrefix) then profileImage.value
      else LocalIps + profileImage.value
    else LocalIps + DefaultProfileImage
  }

  /** The file name the upload part carries. */
  function AttachmentName(customerId: string): string {
    "profile_" + customerId + ".jpg"
  }

  /** `handleUpdate` up to the request: nothing is sent unless the form
      passes; the image part goes along only for a local file. */
  function UpdateRequest(customerId: string, name: string, phone: string, profileImage: Option<string>)
    : (r: Option<ProfileApi.ProfileRequest>)
    ensures r.Some? <==> NamePattern(name) && TenDigits(phone)
    ensures r.Some? ==> r.value.id == Some(customerId) && r.value.fullName == Some(name) && r.value.phone == Some(phone)
    ensures r.Some? ==> (r.value.upload.Some? <==> IsLocalFile(profileImage))
    ensures r.Some? && r.value.upload.Some? ==> r.value.upload.value == AttachmentName(customerId)
  {
    if !ValidateForm(name, phone).0 then None
    else
      var upload := if IsLocalFile(profileImage) then Some(AttachmentName(customerId)) else None;
      Some(ProfileApi.ProfileRequest(Some(customerId), Some(name), Some(phone), upload))
  }

  /** The JSON text field `key` of the reply's `user` object, if it has one. */
  function ReplyField(user: ProfileApi.UserView, key: string): (v: Option<string>)
    ensures key !in {"name", "email", "phone", "Image_URL"} ==> v.None?
  {
    if key == "name" then Some(user.name)
    else if key == "email" then Some(user.email)
    else if key == "phone" then Some(user.phone)
    else if key == "Image_URL" then user.imageUrl
    else None
  }

  /** The image the screen stores after a successful update:
      `data.user.profileImage || profileImage || ""`. */
  function StoredImage(user: ProfileApi.UserView, profileImage: Option<string>): string {
    var fromReply := ReplyField(user, "profileImage");
    if IsTruthyText(fromReply) then fromReply.value
    else if IsTruthyText(profileImage) then profileImage.value
    else ""
  }

  // ---------------------------------------------------------------------------
  // Properties

  /** The reply's user object has no `profileImage` field, so after a
      successful update the screen stores its own image (the local `file://`
      URI of a new upload) and never the path the server saved. */
  lemma StoredImageIsLocal(user: ProfileApi.UserView, profileImage: Option<string>)
    ensures StoredImage(user, profileImage) == if IsTruthyText(profileImage) then profileImage.value else ""
  {
  }

  /** The image part the screen sends always has an allowed extension. */
  lemma AttachmentAllowed(customerId: string)
    ensures ProfileApi.AllowedFile(AttachmentName(customerId))
  {
    ProfileApi.ExtensionDecides("profile_" + customerId, "jpg");
    assert "profile_" + customerId + "." + "jpg" == AttachmentName(customerId);
    assert Lower("jpg") == "jpg";
  }

  /** A phone the screen accepts passes the server's phone check, and a name
      the screen accepts passes the server's length check when it has two
      letters. */
  lemma ScreenFieldsPassServer(name: string, phone: string, i: int, j: int)
    requires ValidatePhone(phone) == "" && ValidateFullName(name) == ""
    requires 0 <= i < j < |name| && IsAsciiLetter(name[i]) && IsAsciiLetter(name[j])
    ensures TenDigits(phone)
    ensures |PyStrip(name)| >= 2
  {
    TrimKeepsInner(name, IsPySpace, i, j);
  }

  /** A name of two spaces passes the screen's pattern, but the server strips
      it to nothing and refuses the update (with 500, see
      `ProfileApi.Finally`). */
  lemma BlankNamePassesScreenNotServer(rows: map<int, ProfileApi.ProfileRow>, uuid: string)
    ensures var req := UpdateRequest("7", "  ", "9817112305", None);
      req.Some? && ProfileApi.UpdateProfile(rows, req.value, uuid).status == 500
  {
    assert NamePattern("  ");
    assert TenDigits("9817112305");
    assert TrimLeft("  ", IsPySpace) == "";
    assert PyStrip("  ") == "";
  }

  /** Typing in one field never touches the other field's message, and the
      whole-form check agrees with typing both fields in turn. */
  lemma TypingThenSubmitting(errors: FieldErrors, name: string, phone: string)
    ensures OnPhoneChange(OnNameChange(errors, name), phone) == ValidateForm(name, phone).1
    ensures OnNameChange(OnPhoneChange(errors, phone), name) == ValidateForm(name, phone).1
  {
  }
}
