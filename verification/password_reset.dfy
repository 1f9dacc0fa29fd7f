/**
 * Password reset on the backend (Backend/ForgotPassword.py). The server keeps
 * one pending OTP and one email in process-wide variables: requesting an OTP
 * stores both, verifying a correct OTP clears it, and setting a new password
 * rewrites every account with the stored email. The five random digits, the
 * outcome of sending the email and the password hash are parameters.
 */
module PasswordReset {
  import opened Common

  /** `GLOBAL_OTP` and `Global_email`. */
  datatype ResetState = ResetState(otp: Option<string>, email: Option<string>)

  /** Both variables at start-up. */
  const Initial: ResetState := ResetState(None, None)

  datatype Account = Account(email: string, passwordHash: string)

  predicate HasAccount(users: map<int, Account>, email: string) {
    exists id :: id in users && users[id].email == email
  }

  /** Five draws of `random.randint(0, 9)`. */
  predicate ValidDraws(draws: seq<int>) {
    |draws| == 5 && forall k :: 0 <= k < |draws| ==> 0 <= draws[k] <= 9
  }

  /** The OTP text: the draws as decimal digits. */
  function OtpOf(draws: seq<int>): (otp: string)
    requires ValidDraws(draws)
    ensures |otp| == 5 && AllDigits(otp)
    ensures forall k :: 0 <= k < 5 ==> DigitValue(otp[k]) == draws[k]
  {
    seq(5, k requires 0 <= k < 5 => ('0' as int + draws[k]) as char)
  }

  /** POST /password_reset: the status and the state afterwards. */
  function RequestOtp(st: ResetState, users: map<int, Account>, email: Option<string>,
                      draws: seq<int>, mailSent: bool): (r: (int, ResetState))
    requires ValidDraws(draws)
    ensures r.0 == 400 <==> !IsTruthyText(email) || !HasAccount(users, email.value)
    ensures r.0 == 400 ==> r.1 == st
    ensures r.0 != 400 ==> r.1 == ResetState(Some(OtpOf(draws)), email)
    ensures r.0 != 400 ==> (r.0 == 200 <==> mailSent) && r.0 in {200, 500}
  {
    if !IsTruthyText(email) then (400, st)
    else if !HasAccount(users, email.value) then (400, st)
    else
      var st' := ResetState(Some(OtpOf(draws)), email);
      if !mailSent then (500, st') else (200, st')
  }

  /** POST /password_reset_OTP. */
  function VerifyOtp(st: ResetState, received: Option<string>): (r: (int, ResetState))
    ensures r.0 in {200, 400}
    ensures r.0 == 200 <==> IsTruthyText(received) && st.otp == received
    ensures r.0 == 200 ==> r.1 == st.(otp := None)
    ensures r.0 == 400 ==> r.1 == st
  {
    if !IsTruthyText(received) then (400, st)
    else if st.otp.None? then (400, st)
    else if received.value == st.otp.value then (200, st.(otp := None))
    else (400, st)
  }

  /** The accounts an update addresses: those with the stored email (none
      when no email is stored, as `WHERE email = NULL` matches nothing). */
  function Addressed(users: map<int, Account>, email: Option<string>): (ids: set<int>)
    ensures forall id :: id in ids <==> id in users && email == Some(users[id].email)
  {
    set id | id in users && email == Some(users[id].email)
  }

  /** POST /update_password: the status and the accounts afterwards. The
      update counts the rows whose value changed; none answers 404. */
  function UpdatePassword(st: ResetState, users: map<int, Account>, password: Option<string>,
                          hash: string -> string): (r: (int, map<int, Account>))
    ensures r.0 in {200, 400, 404}
    ensures r.0 == 400 <==> !IsTruthyText(password) || |password.value| < 8
    ensures r.0 == 400 ==> r.1 == users
    ensures r.0 != 400 ==>
      (r.0 == 404 <==> forall id :: id in Addressed(users, st.email) ==> users[id].passwordHash == hash(password.value))
    ensures r.0 != 400 ==> r.1.Keys == users.Keys
    ensures r.0 != 400 ==> forall id :: id in users ==>
      r.1[id] == if id in Addressed(users, st.email) then users[id].(passwordHash := hash(password.value)) else users[id]
  {
    if !IsTruthyText(password) then (400, users)
    else if |password.value| < 8 then (400, users)
    else
      var h := hash(password.value);
      var ids := Addressed(users, st.email);
      var users' := map id | id in users :: if id in ids then users[id].(passwordHash := h) else users[id];
      var changed := exists id :: id in ids && users[id].passwordHash != h;
      if !changed then (404, users') else (200, users')
  }

  // ---------------------------------------------------------------------------
  // Properties

  /** An OTP is good for one verification: the same value a second time is
      refused. */
  lemma OtpSingleUse(st: ResetState, received: Option<string>)
    requires VerifyOtp(st, received).0 == 200
    ensures VerifyOtp(VerifyOtp(st, received).1, received).0 == 400
  {
  }

  /** A wrong guess leaves the pending OTP in place, so the right one still
      works afterwards. */
  lemma WrongGuessKeepsOtp(st: ResetState, wrong: string)
    requires st.otp.Some? && st.otp.value != "" && wrong != st.otp.value
    ensures var r := VerifyOtp(st, Some(wrong));
      r.0 == 400 && VerifyOtp(r.1, st.otp).0 == 200
  {
  }

  /** The OTP is stored before the email is sent: when sending fails the
      reply is 500, yet the OTP can be verified. */
  lemma OtpKeptWhenMailFails(st: ResetState, users: map<int, Account>, email: string, draws: seq<int>)
    requires ValidDraws(draws) && email != "" && HasAccount(users, email)
    ensures var r := RequestOtp(st, users, Some(email), draws, false);
      r.0 == 500 && VerifyOtp(r.1, Some(OtpOf(draws))).0 == 200
  {
    var otp := OtpOf(draws);
    assert otp != "" by { assert |otp| == 5; }
  }

  /** A new request replaces the pending OTP: the earlier one no longer
      verifies unless the draws repeat it. */
  lemma NewOtpReplacesOld(st: ResetState, users: map<int, Account>, email: string,
                          first: seq<int>, second: seq<int>, sent1: bool, sent2: bool)
    requires ValidDraws(first) && ValidDraws(second) && email != "" && HasAccount(users, email)
    requires OtpOf(first) != OtpOf(second)
    ensures var s1 := RequestOtp(st, users, Some(email), first, sent1).1;
      var s2 := RequestOtp(s1, users, Some(email), second, sent2).1;
      VerifyOtp(s2, Some(OtpOf(first))).0 == 400
  {
  }

  /** The update does not ask whether the OTP was verified: right after an
      OTP request, a long enough password replaces the hash of the account
      with that email (given a hash that differs from the stored one, as a
      fresh bcrypt salt gives). */
  lemma UpdateWithoutVerifying(users: map<int, Account>, id: int, draws: seq<int>, password: string,
                               hash: string -> string)
    requires ValidDraws(draws) && id in users && users[id].email != ""
    requires |password| >= 8 && hash(password) != users[id].passwordHash
    ensures var st := RequestOtp(Initial, users, Some(users[id].email), draws, true).1;
      var r := UpdatePassword(st, users, Some(password), hash);
      r.0 == 200 && r.1[id].passwordHash == hash(password)
  {
    var st := RequestOtp(Initial, users, Some(users[id].email), draws, true).1;
    assert id in Addressed(users, st.email);
  }

  /** Before any OTP request no email is stored, so a valid password changes
      nothing and gets 404. */
  lemma UpdateBeforeRequest(users: map<int, Account>, password: string, hash: string -> string)
    requires |password| >= 8
    ensures UpdatePassword(Initial, users, Some(password), hash) == (404, users)
  {
    var r := UpdatePassword(Initial, users, Some(password), hash);
    assert Addressed(users, None) == {};
    assert r.1 == users;
  }
}
