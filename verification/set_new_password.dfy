/**
 * The new-password screen (SmartHotel/src/Screens/SetNewPasswordScreen.js):
 * the checks before the request, in their order, and the message shown for
 * the server's answer. Related to `PasswordReset.UpdatePassword`.
 */
module SetNewPassword {
  import opened Common
  import PasswordReset

  /** What pressing the button leads to. */
  datatype Outcome = FillBoth | Mismatch | TooShort | Send(password: string)

  /** `handleUpdatePassword` up to the request. */
  function HandleUpdatePassword(password: string, confirm: string): (o: Outcome)
    ensures password == [] || confirm == [] ==> o == FillBoth
    ensures password != [] && confirm != [] && password != confirm ==> o == Mismatch
    ensures o.Send? <==> password != [] && password == confirm && JsLength(password) >= 8
    ensures o.Send? ==> o.password == password
  {
    if password == "" || confirm == "" then FillBoth
    else if password != confirm then Mismatch
    else if JsLength(password) < 8 then TooShort
    else Send(password)
  }

  /** The alert after a non-2xx reply: the server's error, with "User not
      found" replaced by a friendlier text. */
  function ErrorMessage(error: Option<string>): (m: string)
    ensures error == Some("User not found") ==> m == "Account not found. Please check your email or sign up."
    ensures !IsTruthyText(error) ==> m == "Failed to update password"
    ensures IsTruthyText(error) && error.value != "User not found" ==> m == error.value
  {
    if error == Some("User not found") then "Account not found. Please check your email or sign up."
    else if IsTruthyText(error) then error.value
    else "Failed to update password"
  }

  /** The `error` text of each refusal of POST /update_password, by status. */
  function ServerError(status: int, password: Option<string>): Option<string> {
    if status == 404 then Some("User not found")
    else if status == 400 then
      if !IsTruthyText(password) then Some("password are required")
      else Some("Password must be at least 8 characters long")
    else if status == 500 then Some("Internal Server Error")
    else None
  }

  // ---------------------------------------------------------------------------
  // Properties

  /** A password the screen sends passes the server's length check when it
      has no character outside the Basic Multilingual Plane. */
  lemma SentPasswordPassesServer(password: string, confirm: string, st: PasswordReset.ResetState,
                                 users: map<int, PasswordReset.Account>, hash: string -> string)
    requires HandleUpdatePassword(password, confirm).Send?
    requires forall k :: 0 <= k < |password| ==> !IsAstral(password[k])
    ensures PasswordReset.UpdatePassword(st, users, Some(password), hash).0 != 400
  {
  }

  /** The screen counts UTF-16 code units and the server counts characters:
      four emoji pass the screen's length check and fail the server's. */
  lemma EmojiPasswordPassesScreenNotServer(st: PasswordReset.ResetState,
                                           users: map<int, PasswordReset.Account>, hash: string -> string)
    ensures var p := "\U{1F600}\U{1F600}\U{1F600}\U{1F600}";
      HandleUpdatePassword(p, p).Send? && PasswordReset.UpdatePassword(st, users, Some(p), hash).0 == 400
  {
    var p := "\U{1F600}\U{1F600}\U{1F600}\U{1F600}";
    assert p[1..][1..][1..][1..] == [];
    assert JsLength(p) == 8;
  }

  /** The alert for each refusal the server can give: a missing account gets
      the friendlier text, and a password the server finds missing or short
      gets the server's own words. */
  lemma MessageForEachRefusal(st: PasswordReset.ResetState, users: map<int, PasswordReset.Account>,
                              password: string, hash: string -> string)
    ensures var r := PasswordReset.UpdatePassword(st, users, Some(password), hash);
      var m := ErrorMessage(ServerError(r.0, Some(password)));
      && (r.0 == 404 ==> m == "Account not found. Please check your email or sign up.")
      && (r.0 == 400 ==> m == (if password == "" then "password are required"
                               else "Password must be at least 8 characters long"))
  {
  }

  /** The checks come in order: an empty field is reported even when the two
      fields also differ, and a mismatch even when the password is short. */
  lemma ChecksInOrder()
    ensures HandleUpdatePassword("", "abc") == FillBoth
    ensures HandleUpdatePassword("abc", "abd") == Mismatch
    ensures HandleUpdatePassword("abc", "abc") == TooShort
  {
    assert JsLength("abc") == 3 by {
      assert forall k :: 0 <= k < |"abc"| ==> !IsAstral("abc"[k]);
    }
  }
}
