/**
 * The single-file backend, backend/main.py: access tokens, the current-user
 * dependency, and the register, login and message endpoints. JWT signing and
 * decoding (including the library's expiry check), password hashing and
 * fresh UUIDs are passed in.
 */
module Monolith {
  import opened Common
  import opened MessageService
  import opened AuthService

  /** A claim value of a token payload: a string, or an expiry instant in seconds. */
  datatype ClaimValue = Str(s: string) | Time(t: int)

  type Claims = map<string, ClaimValue>

  /** `jwt.encode` with the server's key and algorithm. */
  type Signer = Claims -> string

  /** `jwt.decode`: `None` for a bad signature, an expired token or a malformed payload. */
  type Decoder = string -> Option<Claims>

  /** The default lifetime, fifteen minutes, in seconds. */
  const DefaultLifetime: int := 15 * 60

  /** ACCESS_TOKEN_EXPIRE_MINUTES (thirty) in seconds. */
  const AccessTokenLifetime: int := 30 * 60

  const BadCredentials := HttpError(401, "Could not validate credentials")
  const BadLogin := HttpError(401, "Incorrect email or password")
  const DuplicateMessage := HttpError(400, "Message with this ID already exists")
  const ReplyNotSaved := HttpError(500, "Failed to create AI response message")

  /**
   * The payload `create_access_token` signs: the given claims with `exp` set.
   * A missing or zero delta is falsy in Python and gives the default lifetime.
   */
  function TokenClaims(data: Claims, delta: Option<int>, now: int): (c: Claims)
    ensures c.Keys == data.Keys + {"exp"}
    ensures c["exp"] == Time(now + if delta.Some? && delta.value != 0 then delta.value else DefaultLifetime)
    ensures forall k :: k in data && k != "exp" ==> c[k] == data[k]
  {
    data["exp" := Time(now + if delta.Some? && delta.value != 0 then delta.value else DefaultLifetime)]
  }

  /** `create_access_token`. */
  function CreateAccessToken(data: Claims, delta: Option<int>, now: int, sign: Signer): string {
    sign(TokenClaims(data, delta, now))
  }

  /**
   * `get_current_user`: the user named by the token's `sub` claim. A token that
   * does not decode, has no string `sub` (the JWT library refuses a non-string
   * subject while decoding), or names no registered email is a 401.
   */
  function GetCurrentUser(users: seq<UserRow>, token: string, decode: Decoder): (r: Result<UserRow>)
    ensures r.Ok? <==>
      && decode(token).Some? && "sub" in decode(token).value && decode(token).value["sub"].Str?
      && FindUser(users, decode(token).value["sub"].s).Some?
    ensures r.Ok? ==> r.value in users && r.value.email == decode(token).value["sub"].s
    ensures r.Fail? ==> r.error == BadCredentials
  {
    match decode(token)
    case None => Fail(BadCredentials)
    case Some(payload) =>
      if "sub" !in payload || !payload["sub"].Str? then Fail(BadCredentials)
      else
        match FindUser(users, payload["sub"].s)
        case None => Fail(BadCredentials)
        case Some(user) => Ok(user)
  }

  /**
   * The `/token` endpoint: for a user whose password verifies, a token for
   * their email valid for thirty minutes; otherwise a 401.
   */
  function Login(users: seq<UserRow>, username: string, password: string, verify: Verifier,
                 now: int, sign: Signer): (r: Result<string>)
    ensures r.Ok? <==> Authenticate(users, username, password, verify).Some?
    ensures r.Ok? ==> r.value == sign(TokenClaims(map["sub" := Str(username)], Some(AccessTokenLifetime), now))
    ensures r.Fail? ==> r.error == BadLogin
  {
    match Authenticate(users, username, password, verify)
    case None => Fail(BadLogin)
    case Some(user) => Ok(CreateAccessToken(map["sub" := Str(user.email)], Some(AccessTokenLifetime), now, sign))
  }

  /**
   * A token issued by the login endpoint carries exactly the subject and the
   * expiry, expires thirty minutes after it is issued, and identifies the user
   * who logged in, provided the JWT library decodes the token it signed
   * (before it expires).
   */
  lemma LoginTokenIdentifiesUser(users: seq<UserRow>, username: string, password: string, verify: Verifier,
                                 now: int, sign: Signer, decode: Decoder)
    requires Login(users, username, password, verify, now, sign).Ok?
    requires var t := Login(users, username, password, verify, now, sign).value;
             decode(t) == Some(TokenClaims(map["sub" := Str(username)], Some(AccessTokenLifetime), now))
    ensures var t := Login(users, username, password, verify, now, sign).value;
            && decode(t).value.Keys == {"sub", "exp"}
            && decode(t).value["exp"] == Time(now + 1800)
            && GetCurrentUser(users, t, decode) == Ok(Authenticate(users, username, password, verify).value)
  {
    var c := TokenClaims(map["sub" := Str(username)], Some(AccessTokenLifetime), now);
    assert "sub" in c && c["sub"] == Str(username);
  }

  /**
   * The `/register` endpoint of this backend: only the duplicate email is
   * checked, then the user is stored with the hashed password.
   */
  method Register(table: UserTable, u: UserCreate, freshId: string, hash: Hasher) returns (r: Result<PublicUser>)
    modifies table
    ensures FindUser(old(table.users), u.email).Some? ==> r == Fail(EmailTaken) && table.users == old(table.users)
    ensures FindUser(old(table.users), u.email).None? ==>
      && table.users == old(table.users) + [NewUserRow(u, freshId, hash)]
      && r == Ok(PublicUser(freshId, u.firstName, u.lastName, u.email))
  {
    if FindUser(table.users, u.email).Some? {
      return Fail(EmailTaken);
    }
    table.users := table.users + [NewUserRow(u, freshId, hash)];
    r := Ok(PublicUser(freshId, u.firstName, u.lastName, u.email));
  }

  /** The `GET /messages` endpoint: the caller's own rows, oldest first. */
  function ReadMessages(users: seq<UserRow>, rows: seq<Row>, token: string, decode: Decoder): (r: Result<seq<Row>>)
    ensures r.Fail? <==> GetCurrentUser(users, token, decode).Fail?
    ensures r.Fail? ==> r.error == BadCredentials
    ensures r.Ok? ==> var me := GetCurrentUser(users, token, decode).value.id;
      && SortedByTime(r.value)
      && forall x :: multiset(r.value)[x] == if x.sender == me then multiset(rows)[x] else 0
  {
    match GetCurrentUser(users, token, decode)
    case Fail(e) => Fail(e)
    case Ok(user) => Ok(UserMessages(rows, user.id))
  }

  /** The canned reply this backend stores for a user message. */
  function EchoReply(content: string): string {
    "AI response to: " + content
  }

  /**
   * The `POST /messages` endpoint of this backend: insert the user row (400
   * when the id exists), then a bot row with the echo reply under a fresh id.
   * When the bot insert collides, the user row stays and the answer is a 500.
   */
  method CreateMessage(table: MessageTable, users: seq<UserRow>, token: string, decode: Decoder,
                       id: string, content: string, now: int, botId: string, botNow: int)
    returns (r: Result<Row>)
    requires table.Valid()
    modifies table
    ensures table.Valid()
    ensures GetCurrentUser(users, token, decode).Fail? ==>
      r == Fail(BadCredentials) && table.rows == old(table.rows)
    ensures GetCurrentUser(users, token, decode).Ok? ==>
      var me := GetCurrentUser(users, token, decode).value.id;
      var mine := Row(id, content, me, now, User);
      var reply := Row(botId, EchoReply(content), me, botNow, Assistant);
      && (HasId(old(table.rows), id) ==>
            r == Fail(DuplicateMessage) && table.rows == old(table.rows))
      && (!HasId(old(table.rows), id) && HasId(old(table.rows) + [mine], botId) ==>
            r == Fail(ReplyNotSaved) && table.rows == old(table.rows) + [mine])
      && (!HasId(old(table.rows), id) && !HasId(old(table.rows) + [mine], botId) ==>
            r == Ok(reply) && table.rows == old(table.rows) + [mine, reply])
  {
    var auth := GetCurrentUser(users, token, decode);
    if auth.Fail? {
      return Fail(auth.error);
    }
    var me := auth.value.id;
    var mine := Row(id, content, me, now, User);
    if HasId(table.rows, id) {
      return Fail(DuplicateMessage);
    }
    InsertKeepsUniqueIds(table.rows, mine);
    table.rows := table.rows + [mine];
    var reply := Row(botId, EchoReply(content), me, botNow, Assistant);
    if HasId(table.rows, botId) {
      return Fail(ReplyNotSaved);
    }
    InsertKeepsUniqueIds(table.rows, reply);
    table.rows := table.rows + [reply];
    r := Ok(reply);
  }

  /**
   * The `PUT /messages/{id}` endpoint: authentication first, then the same
   * rules as the service's update.
   */
  method UpdateMessage(table: MessageTable, users: seq<UserRow>, token: string, decode: Decoder,
                       id: string, content: Option<string>)
    returns (r: Result<Row>)
    requires table.Valid()
    modifies table
    ensures table.Valid()
    ensures GetCurrentUser(users, token, decode).Fail? ==>
      r == Fail(BadCredentials) && table.rows == old(table.rows)
    ensures GetCurrentUser(users, token, decode).Ok? ==>
      var me := GetCurrentUser(users, token, decode).value.id;
      && (content.None? || content == Some([]) ==>
            r == Fail(HttpError(400, "Content is required")) && table.rows == old(table.rows))
      && (content.Some? && content.value != [] && FindOwned(old(table.rows), id, me).None? ==>
            r == Fail(HttpError(404, "Message not found or not editable")) && table.rows == old(table.rows))
      && (content.Some? && content.value != [] && FindOwned(old(table.rows), id, me).Some? ==>
            && table.rows == UpdateContent(old(table.rows), id, me, content.value)
            && r == Ok(old(table.rows)[FindOwned(old(table.rows), id, me).value].(content := content.value)))
  {
    var auth := GetCurrentUser(users, token, decode);
    if auth.Fail? {
      return Fail(auth.error);
    }
    r := table.UpdateUserMessage(id, content, auth.value.id);
  }

  /**
   * The `DELETE /messages/{id}` endpoint: authentication first, then the
   * caller's rows from the target's timestamp on are removed.
   */
  method DeleteMessage(table: MessageTable, users: seq<UserRow>, token: string, decode: Decoder, id: string)
    returns (r: Result<()>)
    requires table.Valid()
    modifies table
    ensures table.Valid()
    ensures GetCurrentUser(users, token, decode).Fail? ==>
      r == Fail(BadCredentials) && table.rows == old(table.rows)
    ensures GetCurrentUser(users, token, decode).Ok? ==>
      var me := GetCurrentUser(users, token, decode).value.id;
      && (FindOwned(old(table.rows), id, me).None? ==>
            r == Fail(HttpError(404, "Message not found or not deletable")) && table.rows == old(table.rows))
      && (FindOwned(old(table.rows), id, me).Some? ==>
            && table.rows == SuffixDelete(old(table.rows), me, old(table.rows)[FindOwned(old(table.rows), id, me).value].timestamp)
            && r == Ok(()))
  {
    var auth := GetCurrentUser(users, token, decode);
    if auth.Fail? {
      return Fail(auth.error);
    }
    r := table.DeleteUserMessage(id, auth.value.id);
  }
}
