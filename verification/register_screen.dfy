/**
 * The sign-up form (SmartHotel/src/Screens/RegisterScreen.js): the per-field
 * rules, the error map they update, and the whole-form check that gates the
 * request. The form's keys are email, name, password, role and phone, while
 * the rule for the name is registered under "username", so the name is never
 * checked.
 */
module RegisterScreen {
  import opened Common
  import Register

  /** The `form` state. */
  datatype RegisterForm = RegisterForm(email: string, name: string, password: string, role: string, phone: string)

  /** The keys the screen uses, for the form and for the error map. */
  datatype Key = EmailKey | NameKey | UsernameKey | PasswordKey | RoleKey | PhoneKey

  /** The key as written in the screen. */
  function KeyText(k: Key): string {
    match k
    case EmailKey => "email"
    case NameKey => "name"
    case UsernameKey => "username"
    case PasswordKey => "password"
    case RoleKey => "role"
    case PhoneKey => "phone"
  }

  /** `Object.keys(form)`, in declaration order. */
  const FormKeys: seq<Key> := [EmailKey, NameKey, PasswordKey, RoleKey, PhoneKey]

  /** The keys of the initial `errors` state. */
  const ErrorKeys: seq<Key> := [EmailKey, UsernameKey, PasswordKey, RoleKey, PhoneKey]

  /** `form[field]`; a key the form does not have reads as "". */
  function ValueOf(form: RegisterForm, field: Key): string {
    match field
    case EmailKey => form.email
    case NameKey => form.name
    case PasswordKey => form.password
    case RoleKey => form.role
    case PhoneKey => form.phone
    case UsernameKey => ""
  }

  /** `[^\s@]` */
  predicate PlainEmailChar(c: char) {
    !IsJsSpace(c) && c != '@'
  }

  predicate AllPlain(s: string) {
    forall k :: 0 <= k < |s| ==> PlainEmailChar(s[k])
  }

  /** The email pattern `^[^\s@]+@[^\s@]+\.[^\s@]+$`, split where the regex splits. */
  predicate EmailPattern(s: string) {
    exists i, j | 0 < i && i + 1 < j && j + 1 < |s| ::
      s[i] == '@' && s[j] == '.' && AllPlain(s[..i]) && AllPlain(s[i + 1..j]) && AllPlain(s[j + 1..])
  }

  /** `value.trim()` is empty: every character is white space. */
  predicate Blank(value: string) {
    forall k :: 0 <= k < |value| ==> IsJsSpace(value[k])
  }

  lemma BlankIffTrimEmpty(value: string)
    ensures Blank(value) <==> JsTrim(value) == ""
  {
    TrimEmptyIff(value, IsJsSpace);
  }

  /** `validateField`: the message for one field, "" when it passes. The
      switch has cases for email, username, password, role and phone; any other
      key falls to the default and passes. */
  function ValidateField(field: Key, value: string): (error: string)
  {
    match field
    case EmailKey =>
      if Blank(value) then "Email is required"
      else if !EmailPattern(value) then "Invalid email format"
      else ""
    case UsernameKey =>
      if Blank(value) then "Username is required"
      else if JsLength(value) < 3 then "Username must be at least 3 characters"
      else ""
    case PasswordKey =>
      if value == "" then "Password is required"
      else if JsLength(value) < 6 then "Password must be at least 6 characters"
      else ""
    case RoleKey =>
      if Blank(value) then "Role is required" else ""
    case PhoneKey =>
      if Blank(value) then "Phone number is required"
      else if !TenDigits(value) then "Phone number must be 10 digits"
      else ""
    case _ => ""
  }

  /** What each rule accepts: a nonblank email matching the pattern, a
      password of at least 6 characters, a role with a non-space character, a
      phone of exactly 10 digits, a nonblank username of at least 3
      characters; keys without a rule accept everything. */
  lemma ValidateFieldRules(field: Key, value: string)
    ensures field == EmailKey ==> (ValidateField(field, value) == "" <==> JsTrim(value) != "" && EmailPattern(value))
    ensures field == PasswordKey ==> (ValidateField(field, value) == "" <==> JsLength(value) >= 6)
    ensures field == RoleKey ==> (ValidateField(field, value) == "" <==> exists k | 0 <= k < |value| :: !IsJsSpace(value[k]))
    ensures field == PhoneKey ==> (ValidateField(field, value) == "" <==> TenDigits(value))
    ensures field == UsernameKey ==> (ValidateField(field, value) == "" <==> JsTrim(value) != "" && JsLength(value) >= 3)
    ensures field !in ErrorKeys ==> ValidateField(field, value) == ""
  {
    match field
    case EmailKey => EmailRule(value);
    case UsernameKey => UsernameRule(value);
    case PasswordKey => PasswordRule(value);
    case RoleKey =>
    case PhoneKey => PhoneRule(value);
    case NameKey =>
  }

  lemma EmailRule(value: string)
    ensures ValidateField(EmailKey, value) == "" <==> JsTrim(value) != "" && EmailPattern(value)
  {
    BlankIffTrimEmpty(value);
  }

  lemma UsernameRule(value: string)
    ensures ValidateField(UsernameKey, value) == "" <==> JsTrim(value) != "" && JsLength(value) >= 3
  {
    BlankIffTrimEmpty(value);
  }

  lemma PasswordRule(value: string)
    ensures ValidateField(PasswordKey, value) == "" <==> JsLength(value) >= 6
  {
    assert value == [] ==> JsLength(value) == 0;
  }

  lemma PhoneRule(value: string)
    ensures ValidateField(PhoneKey, value) == "" <==> TenDigits(value)
  {
    if TenDigits(value) {
      assert !IsJsSpace(value[0]);
    }
  }

  /** Each key of the form with the message its rule gives, in key order. */
  function Outcomes(form: RegisterForm): seq<(Key, string)> {
    [(EmailKey, ValidateField(EmailKey, form.email)),
     (NameKey, ValidateField(NameKey, form.name)),
     (PasswordKey, ValidateField(PasswordKey, form.password)),
     (RoleKey, ValidateField(RoleKey, form.role)),
     (PhoneKey, ValidateField(PhoneKey, form.phone))]
  }

  /** `setErrors(prev => ({...prev, [field]: error}))` for each outcome in turn. */
  function SetErrors(errors: map<Key, string>, o: seq<(Key, string)>): map<Key, string>
    decreases |o|
  {
    if |o| == 0 then errors else SetErrors(errors[o[0].0 := o[0].1], o[1..])
  }

  /** Recording one outcome after another overwrites earlier entries with
      later ones; a key with no outcome keeps its entry. */
  lemma {:induction false} SetErrorsSpec(errors: map<Key, string>, o: seq<(Key, string)>)
    ensures forall k :: k in SetErrors(errors, o) <==> k in errors || exists i | 0 <= i < |o| :: o[i].0 == k
    ensures forall k :: k in errors && (forall i | 0 <= i < |o| :: o[i].0 != k) ==> SetErrors(errors, o)[k] == errors[k]
    ensures forall i | 0 <= i < |o| :: (forall j | i < j < |o| :: o[j].0 != o[i].0) ==> SetErrors(errors, o)[o[i].0] == o[i].1
    decreases |o|
  {
    if |o| > 0 {
      var rest := o[1..];
      var e1 := errors[o[0].0 := o[0].1];
      SetErrorsSpec(e1, rest);
      forall k ensures k in SetErrors(errors, o) <==> k in errors || exists i | 0 <= i < |o| :: o[i].0 == k {
        if exists i | 0 <= i < |o| :: o[i].0 == k {
          var i :| 0 <= i < |o| && o[i].0 == k;
          if i > 0 {
            assert rest[i - 1].0 == k;
          }
        }
        if exists i | 0 <= i < |rest| :: rest[i].0 == k {
          var i :| 0 <= i < |rest| && rest[i].0 == k;
          assert o[i + 1].0 == k;
        }
      }
      forall k | k in errors && (forall i | 0 <= i < |o| :: o[i].0 != k) ensures SetErrors(errors, o)[k] == errors[k] {
        forall i | 0 <= i < |rest| ensures rest[i].0 != k {
          assert rest[i] == o[i + 1];
        }
      }
      forall i | 0 <= i < |o| && (forall j | i < j < |o| :: o[j].0 != o[i].0) ensures SetErrors(errors, o)[o[i].0] == o[i].1 {
        if i == 0 {
          forall j | 0 <= j < |rest| ensures rest[j].0 != o[0].0 {
            assert rest[j] == o[j + 1];
          }
        } else {
          assert o[i] == rest[i - 1];
          forall j | i - 1 < j < |rest| ensures rest[j].0 != rest[i - 1].0 {
            assert rest[j] == o[j + 1];
          }
        }
      }
    }
  }

  /** `validations.every(valid => valid)`. */
  function Every(vs: seq<bool>): (b: bool)
    ensures b <==> forall k :: 0 <= k < |vs| ==> vs[k]
  {
    if |vs| == 0 then true
    else
      assert forall k :: 1 <= k < |vs| ==> vs[k] == vs[1..][k - 1];
      vs[0] && Every(vs[1..])
  }

  /** The validity flags of a list of outcomes and the error map after
      recording all of them. */
  function Judge(o: seq<(Key, string)>, errors: map<Key, string>): (r: (bool, map<Key, string>))
    ensures r.0 <==> forall i :: 0 <= i < |o| ==> o[i].1 == ""
  {
    var validations := seq(|o|, i requires 0 <= i < |o| => o[i].1 == "");
    assert forall i :: 0 <= i < |o| ==> (validations[i] <==> o[i].1 == "");
    (Every(validations), SetErrors(errors, o))
  }

  /** Judging the five outcomes of the form, whatever their messages: the
      verdict is whether all five are empty, each key gets its own message and
      any other key keeps its entry. */
  lemma JudgeFive(e: string, n: string, p: string, ro: string, ph: string, errors: map<Key, string>)
    ensures var r := Judge([(EmailKey, e), (NameKey, n), (PasswordKey, p), (RoleKey, ro), (PhoneKey, ph)], errors);
      && (r.0 <==> e == "" && n == "" && p == "" && ro == "" && ph == "")
      && r.1.Keys == errors.Keys + {EmailKey, NameKey, PasswordKey, RoleKey, PhoneKey}
      && r.1[EmailKey] == e && r.1[NameKey] == n && r.1[PasswordKey] == p
      && r.1[RoleKey] == ro && r.1[PhoneKey] == ph
      && (UsernameKey in errors ==> r.1[UsernameKey] == errors[UsernameKey])
  {
    var o := [(EmailKey, e), (NameKey, n), (PasswordKey, p), (RoleKey, ro), (PhoneKey, ph)];
    assert o[1..] == [(NameKey, n), (PasswordKey, p), (RoleKey, ro), (PhoneKey, ph)];
    assert o[2..] == [(PasswordKey, p), (RoleKey, ro), (PhoneKey, ph)];
    assert o[3..] == [(RoleKey, ro), (PhoneKey, ph)];
    assert o[4..] == [(PhoneKey, ph)];
    assert SetErrors(errors, o) == errors[EmailKey := e][NameKey := n][PasswordKey := p][RoleKey := ro][PhoneKey := ph] by {
      assert SetErrors(errors, o) == SetErrors(errors[EmailKey := e], o[1..]);
      assert SetErrors(errors[EmailKey := e], o[1..]) == SetErrors(errors[EmailKey := e][NameKey := n], o[2..]);
      assert SetErrors(errors[EmailKey := e][NameKey := n], o[2..])
          == SetErrors(errors[EmailKey := e][NameKey := n][PasswordKey := p], o[3..]);
      assert SetErrors(errors[EmailKey := e][NameKey := n][PasswordKey := p], o[3..])
          == SetErrors(errors[EmailKey := e][NameKey := n][PasswordKey := p][RoleKey := ro], o[4..]);
      assert SetErrors(errors[EmailKey := e][NameKey := n][PasswordKey := p][RoleKey := ro], o[4..])
          == SetErrors(errors[EmailKey := e][NameKey := n][PasswordKey := p][RoleKey := ro][PhoneKey := ph], o[5..]);
    }
    var r := Judge(o, errors);
    assert r.0 ==> o[0].1 == "" && o[1].1 == "" && o[2].1 == "" && o[3].1 == "" && o[4].1 == "";
  }

  /** `isFormValid`: every key of the form is validated (the map runs to the
      end before `every` looks), updating the error map; the answer is whether
      email, password, role and phone all pass their rules. */
  function IsFormValid(form: RegisterForm, errors: map<Key, string>): (r: (bool, map<Key, string>))
    ensures r.0 <==>
      ValidateField(EmailKey, form.email) == "" && ValidateField(PasswordKey, form.password) == ""
      && ValidateField(RoleKey, form.role) == "" && ValidateField(PhoneKey, form.phone) == ""
    ensures r.1.Keys == errors.Keys + {EmailKey, NameKey, PasswordKey, RoleKey, PhoneKey}
  {
    JudgeFive(ValidateField(EmailKey, form.email), ValidateField(NameKey, form.name),
              ValidateField(PasswordKey, form.password), ValidateField(RoleKey, form.role),
              ValidateField(PhoneKey, form.phone), errors);
    Judge(Outcomes(form), errors)
  }

  // ---------------------------------------------------------------------------
  // Properties

  /** The condition `EmailPatternShape` states: a single '@' with something
      before it, and after it a '.' with something on both sides, and no
      white space anywhere. */
  predicate EmailShape(s: string) {
    exists i | 0 < i < |s| :: s[i] == '@' && AllPlain(s[..i])
      && (forall k :: i < k < |s| ==> PlainEmailChar(s[k]))
      && (exists j | i + 1 < j < |s| - 1 :: s[j] == '.')
  }

  lemma PatternGivesShape(s: string)
    requires EmailPattern(s)
    ensures EmailShape(s)
  {
    var i, j :| 0 < i && i + 1 < j && j + 1 < |s| && s[i] == '@' && s[j] == '.'
                && AllPlain(s[..i]) && AllPlain(s[i + 1..j]) && AllPlain(s[j + 1..]);
    forall k | i < k < |s| ensures PlainEmailChar(s[k]) {
      if k < j {
        assert s[i + 1..j][k - i - 1] == s[k];
      } else if k > j {
        assert s[j + 1..][k - j - 1] == s[k];
      }
    }
  }

  lemma ShapeGivesPattern(s: string)
    requires EmailShape(s)
    ensures EmailPattern(s)
  {
    var i :| 0 < i < |s| && s[i] == '@' && AllPlain(s[..i])
             && (forall k :: i < k < |s| ==> PlainEmailChar(s[k]))
             && (exists j | i + 1 < j < |s| - 1 :: s[j] == '.');
    var j :| i + 1 < j < |s| - 1 && s[j] == '.';
    var mid := s[i + 1..j];
    forall k | 0 <= k < |mid| ensures PlainEmailChar(mid[k]) {
      assert mid[k] == s[i + 1 + k];
    }
    var tail := s[j + 1..];
    forall k | 0 <= k < |tail| ensures PlainEmailChar(tail[k]) {
      assert tail[k] == s[j + 1 + k];
    }
  }

  /** The email pattern holds exactly when the text has no white space, a
      single '@' with something before it, and after it a '.' with something
      on both sides and no further '@'. */
  lemma EmailPatternShape(s: string)
    ensures EmailPattern(s) <==>
      exists i | 0 < i < |s| :: s[i] == '@' && AllPlain(s[..i])
        && (forall k :: i < k < |s| ==> PlainEmailChar(s[k]))
        && (exists j | i + 1 < j < |s| - 1 :: s[j] == '.')
  {
    if EmailPattern(s) {
      PatternGivesShape(s);
    }
    if EmailShape(s) {
      ShapeGivesPattern(s);
    }
  }

  /** The name is never validated: its form key is "name" and no rule has that
      name, so every name passes, including the empty one. */
  lemma NameNeverValidated(form: RegisterForm, name: string)
    ensures ValidateField(NameKey, name) == ""
    ensures IsFormValid(form, map[]).0 == IsFormValid(form.(name := name), map[]).0
  {
  }

  /** After the whole-form check each of the five form keys holds its rule's
      message and the "username" entry, the only one with a rule for the
      name, is left as it was. */
  lemma FormErrors(form: RegisterForm, errors: map<Key, string>)
    ensures var m := IsFormValid(form, errors).1;
      && m[EmailKey] == ValidateField(EmailKey, form.email) && m[NameKey] == ""
      && m[PasswordKey] == ValidateField(PasswordKey, form.password)
      && m[RoleKey] == ValidateField(RoleKey, form.role) && m[PhoneKey] == ValidateField(PhoneKey, form.phone)
    ensures UsernameKey in errors ==> IsFormValid(form, errors).1[UsernameKey] == errors[UsernameKey]
  {
    JudgeFive(ValidateField(EmailKey, form.email), ValidateField(NameKey, form.name),
              ValidateField(PasswordKey, form.password), ValidateField(RoleKey, form.role),
              ValidateField(PhoneKey, form.phone), errors);
  }

  /** `handleRegister` up to the request: the five fields of the form, or
      `None` when the whole-form check fails. */
  function RegisterRequest(form: RegisterForm): (r: Option<RegisterForm>)
    ensures r.Some? <==> IsFormValid(form, map[]).0
    ensures r.Some? ==> r.value == form
  {
    if IsFormValid(form, map[]).0 then Some(form) else None
  }

  /** A form the screen accepts can still be refused by the server: an empty
      name passes the screen but the server requires one. */
  lemma EmptyNamePassesScreenNotServer(t: Register.UsersTable, hash: string -> string)
    ensures var form := RegisterForm("a@b.cd", "", "secret1", "Customer", "0123456789");
      && RegisterRequest(form).Some?
      && Register.RegisterUser(t, Some(form.name), Some(form.email), Some(form.password),
                               Some(form.phone), Some(form.role), hash).status == 400
  {
    var form := RegisterForm("a@b.cd", "", "secret1", "Customer", "0123456789");
    ExampleEmailPasses();
    ExampleRolePasses();
    ExamplePhonePasses();
    assert ValidateField(PasswordKey, form.password) == "";
  }

  lemma ExampleEmailPasses()
    ensures ValidateField(EmailKey, "a@b.cd") == ""
  {
    var s := "a@b.cd";
    assert !IsJsSpace(s[0]);
    assert EmailPattern(s) by {
      assert s[1] == '@' && s[3] == '.';
      assert AllPlain(s[..1]) && AllPlain(s[2..3]) && AllPlain(s[4..]);
    }
  }

  lemma ExampleRolePasses()
    ensures ValidateField(RoleKey, "Customer") == ""
  {
    assert !IsJsSpace("Customer"[0]);
  }

  lemma ExamplePhonePasses()
    ensures ValidateField(PhoneKey, "0123456789") == ""
  {
    var s := "0123456789";
    assert !IsJsSpace(s[0]);
    assert TenDigits(s);
  }
}
