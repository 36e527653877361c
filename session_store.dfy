/**
 * The client's session store (`AuthProvider` of frontend/src/contexts/AuthContext.tsx):
 * an optional user holding a bearer token, mirrored in the browser's key-value
 * store (`localStorage`) under the key `jwt_token`.
 */
module SessionStore {
  import opened Common

  /** The key under which the token is persisted. */
  const TokenKey: string := "jwt_token"

  /** A snapshot of the provider: the `user` state and the persisted key-value store. */
  datatype Session = Session(user: Option<string>, storage: map<string, string>)

  /** `user` and the persisted key agree: both hold the same token, or both are absent. */
  predicate Agrees(s: Session) {
    match s.user
    case None => TokenKey !in s.storage
    case Some(t) => TokenKey in s.storage && s.storage[TokenKey] == t
  }

  /**
   * The mount-time effect: `user` becomes the stored token when there is one.
   * The source tests the token for truthiness, so an empty stored string leaves
   * `user` as it was.
   */
  function Rehydrate(s: Session): (r: Session)
    ensures r.storage == s.storage
    ensures TokenKey in s.storage && s.storage[TokenKey] != [] ==> r.user == Some(s.storage[TokenKey])
    ensures TokenKey !in s.storage || s.storage[TokenKey] == [] ==> r.user == s.user
  {
    if TokenKey in s.storage && s.storage[TokenKey] != [] then s.(user := Some(s.storage[TokenKey])) else s
  }

  /** `login(token)`: persist the token, then make it the current user's. */
  function LoggedIn(s: Session, token: string): (r: Session)
    ensures r.user == Some(token)
    ensures TokenKey in r.storage && r.storage[TokenKey] == token
    ensures forall k :: k in s.storage && k != TokenKey ==> k in r.storage && r.storage[k] == s.storage[k]
    ensures r.storage.Keys == s.storage.Keys + {TokenKey}
  {
    Session(Some(token), s.storage[TokenKey := token])
  }

  /** `logout()`: remove the persisted token and clear the user. */
  function LoggedOut(s: Session): (r: Session)
    ensures r.user == None && TokenKey !in r.storage
    ensures forall k :: k in s.storage && k != TokenKey ==> k in r.storage && r.storage[k] == s.storage[k]
    ensures r.storage.Keys == s.storage.Keys - {TokenKey}
  {
    Session(None, s.storage - {TokenKey})
  }

  /** After any login or logout, `user` and the stored key agree. */
  lemma LoginAgrees(s: Session, token: string)
    ensures Agrees(LoggedIn(s, token))
  {
  }

  lemma LogoutAgrees(s: Session)
    ensures Agrees(LoggedOut(s))
  {
  }

  /** The most recent login wins, in the user state and in storage alike. */
  lemma LastLoginWins(s: Session, a: string, b: string)
    ensures LoggedIn(LoggedIn(s, a), b) == LoggedIn(s, b)
  {
  }

  /** Login then logout returns to the unauthenticated state, whatever came before. */
  lemma LoginLogoutSignsOut(s: Session, token: string)
    ensures LoggedOut(LoggedIn(s, token)) == LoggedOut(s)
    ensures LoggedOut(LoggedIn(s, token)).user == None
  {
  }

  /** A session written by login survives a reload: rehydration restores the same user. */
  lemma LoginSurvivesReload(s: Session, token: string)
    requires token != []
    ensures Rehydrate(Session(None, LoggedIn(s, token).storage)) == LoggedIn(s, token)
  {
  }

  /**
   * The provider object: its `user` state field and the key-value store it
   * writes through to.
   */
  class AuthProvider {
    var user: Option<string>
    var storage: map<string, string>

    /** The provider's state as a value. */
    function Snapshot(): Session
      reads this
    {
      Session(user, storage)
    }

    /** First render: `user` starts as null; the persisted store is whatever the browser holds. */
    constructor (persisted: map<string, string>)
      ensures user == None && storage == persisted
    {
      user := None;
      storage := persisted;
    }

    /** The mount effect: read the persisted token and, if it is non-empty, adopt it. */
    method Mount()
      modifies this
      ensures Snapshot() == Rehydrate(old(Snapshot()))
    {
      if TokenKey in storage && storage[TokenKey] != [] {
        user := Some(storage[TokenKey]);
      }
    }

    method Login(token: string)
      modifies this
      ensures Snapshot() == LoggedIn(old(Snapshot()), token)
      ensures Agrees(Snapshot())
    {
      storage := storage[TokenKey := token];
      user := Some(token);
    }

    method Logout()
      modifies this
      ensures Snapshot() == LoggedOut(old(Snapshot()))
      ensures Agrees(Snapshot())
    {
      storage := storage - {TokenKey};
      user := None;
    }
  }
}
