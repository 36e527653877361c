/**
 * Account rules of backend/app/services/auth_service.py: registration checks
 * and insert, and password authentication. Hashing and verification are
 * functions passed in.
 */
module AuthService {
  import opened Common

  /** A row of the `users` table; `password` holds the hash. */
  datatype UserRow = UserRow(id: string, firstName: string, lastName: string, email: string, password: string)

  /** The registration form (`UserCreate`). */
  datatype UserCreate = UserCreate(firstName: string, lastName: string, email: string, password: string)

  /** The account as returned to the client (`User`): no password field. */
  datatype PublicUser = PublicUser(id: string, firstName: string, lastName: string, email: string)

  /** `get_password_hash`. */
  type Hasher = string -> string

  /** `verify_password(plain, hashed)`. */
  type Verifier = (string, string) -> bool

  const MinPasswordLength: nat := 8

  const FieldsMissing := HttpError(400, "All fields are required")
  const PasswordTooShort := HttpError(400, "Password must be at least 8 characters long")
  const EmailTaken := HttpError(400, "Email already registered")

  /** `get_user`: the first row with this email (`fetchrow`), if any. */
  function FindUser(users: seq<UserRow>, email: string): (r: Option<UserRow>)
    ensures r.Some? ==> r.value in users && r.value.email == email
    ensures r.None? <==> forall i :: 0 <= i < |users| ==> users[i].email != email
  {
    if users == [] then None
    else if users[0].email == email then Some(users[0])
    else FindUser(users[1..], email)
  }

  /** Appending a row with a new email makes it the row that email finds. */
  lemma {:induction false} FindUserAfterAppend(users: seq<UserRow>, row: UserRow, email: string)
    requires FindUser(users, email).None? && row.email == email
    ensures FindUser(users + [row], email) == Some(row)
  {
    if users != [] {
      assert (users + [row])[1..] == users[1..] + [row];
      FindUserAfterAppend(users[1..], row, email);
    }
  }

  predicate FieldsPresent(u: UserCreate) {
    u.email != [] && u.password != [] && u.firstName != [] && u.lastName != []
  }

  /**
   * The checks of `register_user`, in their order: all fields present, then
   * the password length, then the email not yet registered. The first check
   * that fails is the one reported; `None` means all pass.
   */
  function RegistrationError(u: UserCreate, users: seq<UserRow>): (r: Option<HttpError>)
    ensures r.None? <==> FieldsPresent(u) && |u.password| >= MinPasswordLength && FindUser(users, u.email).None?
    ensures !FieldsPresent(u) ==> r == Some(FieldsMissing)
    ensures FieldsPresent(u) && |u.password| < MinPasswordLength ==> r == Some(PasswordTooShort)
    ensures FieldsPresent(u) && |u.password| >= MinPasswordLength && FindUser(users, u.email).Some? ==> r == Some(EmailTaken)
  {
    if !FieldsPresent(u) then Some(FieldsMissing)
    else if |u.password| < MinPasswordLength then Some(PasswordTooShort)
    else if FindUser(users, u.email).Some? then Some(EmailTaken)
    else None
  }

  /** The row a successful registration stores: the form's fields and the hash of the password. */
  function NewUserRow(u: UserCreate, id: string, hash: Hasher): UserRow {
    UserRow(id, u.firstName, u.lastName, u.email, hash(u.password))
  }

  /** `authenticate_user`: the stored user when the email is known and the password verifies. */
  function Authenticate(users: seq<UserRow>, email: string, password: string, verify: Verifier): (r: Option<UserRow>)
    ensures r.Some? <==> FindUser(users, email).Some? && verify(password, FindUser(users, email).value.password)
    ensures r.Some? ==> r == FindUser(users, email)
  {
    match FindUser(users, email)
    case None => None
    case Some(user) => if verify(password, user.password) then Some(user) else None
  }

  /**
   * A user who has just registered can log in with the same password, provided
   * password verification accepts a password against its own hash.
   */
  lemma RegisteredUserAuthenticates(users: seq<UserRow>, u: UserCreate, id: string, hash: Hasher, verify: Verifier)
    requires RegistrationError(u, users).None?
    requires verify(u.password, hash(u.password))
    ensures Authenticate(users + [NewUserRow(u, id, hash)], u.email, u.password, verify) == Some(NewUserRow(u, id, hash))
  {
    FindUserAfterAppend(users, NewUserRow(u, id, hash), u.email);
  }

  /** A wrong password never authenticates against a hash that rejects it. */
  lemma RejectedPasswordFails(users: seq<UserRow>, email: string, password: string, verify: Verifier)
    requires FindUser(users, email).Some? && !verify(password, FindUser(users, email).value.password)
    ensures Authenticate(users, email, password, verify).None?
  {
  }

  /** The `users` table. */
  class UserTable {
    var users: seq<UserRow>

    constructor ()
      ensures users == []
    {
      users := [];
    }

    /**
     * `register_user`: on the first failing check, its error and no change;
     * otherwise one new row with a fresh id and the hashed password, and the
     * account returned without its password.
     */
    method RegisterUser(u: UserCreate, freshId: string, hash: Hasher) returns (r: Result<PublicUser>)
      modifies this
      ensures RegistrationError(u, old(users)).Some? ==>
        r == Fail(RegistrationError(u, old(users)).value) && users == old(users)
      ensures RegistrationError(u, old(users)).None? ==>
        && users == old(users) + [NewUserRow(u, freshId, hash)]
        && r == Ok(PublicUser(freshId, u.firstName, u.lastName, u.email))
    {
      match RegistrationError(u, users)
      case Some(e) =>
        r := Fail(e);
      case None =>
        users := users + [NewUserRow(u, freshId, hash)];
        r := Ok(PublicUser(freshId, u.firstName, u.lastName, u.email));
    }
  }
}
