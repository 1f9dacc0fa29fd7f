/**
 * Account creation on the backend (Backend/register.py): required fields,
 * the allowed roles, the duplicate-email check, and the new `Users` row with
 * a hashed password. The hash function is a parameter.
 */
module Register {
  import opened Common

  datatype UserRow = UserRow(name: string, email: string, phone: string, passwordHash: string, role: string)

  datatype UsersTable = UsersTable(rows: map<int, UserRow>, nextId: int)

  const AllowedRoles: seq<string> := ["Admin", "Chef", "Customer"]

  /** No two accounts share an email. */
  predicate EmailsUnique(t: UsersTable) {
    forall a, b :: a in t.rows && b in t.rows && t.rows[a].email == t.rows[b].email ==> a == b
  }

  predicate Valid(t: UsersTable) {
    forall id :: id in t.rows ==> id < t.nextId
  }

  predicate EmailTaken(t: UsersTable, email: string) {
    exists id :: id in t.rows && t.rows[id].email == email
  }

  datatype Reply = Reply(status: int, table: UsersTable)

  /** POST /register (form fields; `None` for a missing one). */
  function RegisterUser(t: UsersTable, name: Option<string>, email: Option<string>, password: Option<string>,
                        phone: Option<string>, role: Option<string>, hash: string -> string): (r: Reply)
    ensures r.status == 400 <==>
      !IsTruthyText(name) || !IsTruthyText(email) || !IsTruthyText(password)
      || !IsTruthyText(phone) || !IsTruthyText(role) || role.value !in AllowedRoles
    ensures r.status == 409 <==> r.status != 400 && EmailTaken(t, email.value)
    ensures r.status != 200 ==> r.table == t
    ensures r.status in {200, 400, 409}
    ensures r.status == 200 ==>
      r.table == UsersTable(t.rows[t.nextId := UserRow(name.value, email.value, phone.value, hash(password.value), role.value)],
                            t.nextId + 1)
  {
    if !IsTruthyText(name) || !IsTruthyText(email) || !IsTruthyText(password)
       || !IsTruthyText(phone) || !IsTruthyText(role) then Reply(400, t)
    else if role.value !in AllowedRoles then Reply(400, t)
    else if EmailTaken(t, email.value) then Reply(409, t)
    else Reply(200, UsersTable(t.rows[t.nextId := UserRow(name.value, email.value, phone.value, hash(password.value), role.value)],
                               t.nextId + 1))
  }

  /** Registration keeps emails unique and adds exactly one account with a new
      id; every existing account is untouched. */
  lemma RegisterKeepsEmailsUnique(t: UsersTable, name: Option<string>, email: Option<string>, password: Option<string>,
                                  phone: Option<string>, role: Option<string>, hash: string -> string)
    requires Valid(t) && EmailsUnique(t)
    ensures var r := RegisterUser(t, name, email, password, phone, role, hash);
      && Valid(r.table) && EmailsUnique(r.table)
      && (r.status == 200 ==> t.nextId !in t.rows && r.table.rows.Keys == t.rows.Keys + {t.nextId}
                              && forall id :: id in t.rows ==> r.table.rows[id] == t.rows[id])
  {

  }

  /** Registering the same email twice: the second attempt gets 409 whatever
      the other fields are. */
  lemma SecondRegistrationConflicts(t: UsersTable, name: string, email: string, password: string,
                                    phone: string, role: string, hash: string -> string,
                                    name2: string, password2: string, phone2: string, role2: string)
    requires RegisterUser(t, Some(name), Some(email), Some(password), Some(phone), Some(role), hash).status == 200
    requires name2 != "" && password2 != "" && phone2 != "" && role2 in AllowedRoles
    ensures var t1 := RegisterUser(t, Some(name), Some(email), Some(password), Some(phone), Some(role), hash).table;
      RegisterUser(t1, Some(name2), Some(email), Some(password2), Some(phone2), Some(role2), hash).status == 409
  {
    var t1 := RegisterUser(t, Some(name), Some(email), Some(password), Some(phone), Some(role), hash).table;
    assert t1.rows[t.nextId].email == email;
  }
}
