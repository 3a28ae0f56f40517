/** client/src/context/AuthContext.js: the session kept in `localStorage`
    under the keys 'token', 'role', 'userId' and 'teacherId', and the `user`
    and `loading` state of the provider. The result of the login call is a
    parameter. */
module AuthContext {
  import opened Common

  /** `localStorage`: a map from keys to strings. */
  type Storage = map<string, string>

  /** The `user` object: the token and what the login response said. */
  datatype SessionUser = SessionUser(token: string, role: string, userId: string, teacherId: Option<string>)

  const SessionKeys: set<string> := {"token", "role", "userId", "teacherId"}

  /** `localStorage.getItem(key)`, `null` being `None`. */
  function Lookup(storage: Storage, key: string): Option<string>
  {
    if key in storage then Some(storage[key]) else None
  }

  /** The user the mount effect restores: only when token, role and userId
      are all present and non-empty; the teacher id comes along as stored. */
  function RestoredUser(storage: Storage): (r: Option<SessionUser>)
    ensures r.Some? <==>
      TruthyText(Lookup(storage, "token")) && TruthyText(Lookup(storage, "role")) && TruthyText(Lookup(storage, "userId"))
    ensures r.Some? ==>
      r.value.token == storage["token"] && r.value.role == storage["role"] &&
      r.value.userId == storage["userId"] && r.value.teacherId == Lookup(storage, "teacherId")
  {
    var token := Lookup(storage, "token");
    var role := Lookup(storage, "role");
    var userId := Lookup(storage, "userId");
    if TruthyText(token) && TruthyText(role) && TruthyText(userId)
    then Some(SessionUser(token.value, role.value, userId.value, Lookup(storage, "teacherId")))
    else None
  }

  /** The storage after a successful login: the three keys are written, and
      'teacherId' only when the response's teacher id is non-empty. */
  function StoreSession(storage: Storage, u: SessionUser): (r: Storage)
    ensures r.Keys == storage.Keys + {"token", "role", "userId"} + (if TruthyText(u.teacherId) then {"teacherId"} else {})
    ensures r["token"] == u.token && r["role"] == u.role && r["userId"] == u.userId
    ensures TruthyText(u.teacherId) ==> r["teacherId"] == u.teacherId.value
    ensures !TruthyText(u.teacherId) ==> Lookup(r, "teacherId") == Lookup(storage, "teacherId")
    ensures forall k :: k in storage && k !in SessionKeys ==> k in r && r[k] == storage[k]
  {
    var written := storage["token" := u.token]["role" := u.role]["userId" := u.userId];
    if TruthyText(u.teacherId) then written["teacherId" := u.teacherId.value] else written
  }

  /** The storage after logout: the four keys gone, nothing else touched. */
  function ClearSession(storage: Storage): (r: Storage)
    ensures r.Keys == storage.Keys - SessionKeys
    ensures forall k :: k in r ==> r[k] == storage[k]
  {
    storage - SessionKeys
  }

  /** A session written by login is restored on the next mount, with a
      non-empty teacher id, or with whatever teacher id an earlier session
      left behind when the response carried none. */
  lemma SessionRoundTrip(storage: Storage, u: SessionUser)
    requires u.token != "" && u.role != "" && u.userId != ""
    ensures RestoredUser(StoreSession(storage, u)) ==
      Some(SessionUser(u.token, u.role, u.userId,
                       if TruthyText(u.teacherId) then u.teacherId else Lookup(storage, "teacherId")))
  {
  }

  /** After logout nothing is restored. */
  lemma LogoutForgetsSession(storage: Storage)
    ensures RestoredUser(ClearSession(storage)).None?
    ensures forall k :: k in SessionKeys ==> Lookup(ClearSession(storage), k).None?
  {
  }

  /** The outcome of the login call. */
  datatype LoginOutcome = LoggedIn(user: SessionUser) | LoginFailed(message: string)

  class AuthProvider {
    var storage: Storage
    var user: Option<SessionUser>
    var loading: bool

    /** The provider before its mount effect: no user, loading. */
    constructor(stored: Storage)
      ensures storage == stored && user.None? && loading
    {
      storage := stored;
      user := None;
      loading := true;
    }

    /** The mount effect. */
    method Restore()
      modifies this
      ensures storage == old(storage) && !loading
      ensures user == (if RestoredUser(storage).Some? then RestoredUser(storage) else old(user))
    {
      var token := Lookup(storage, "token");
      var role := Lookup(storage, "role");
      var userId := Lookup(storage, "userId");
      var teacherId := Lookup(storage, "teacherId");
      if TruthyText(token) && TruthyText(role) && TruthyText(userId) {
        user := Some(SessionUser(token.value, role.value, userId.value, teacherId));
      }
      loading := false;
    }

    /** `login`: on success the session is stored and becomes the user; on
        failure nothing changes and the error message is returned. */
    method Login(outcome: LoginOutcome) returns (success: bool, message: Option<string>)
      modifies this
      ensures loading == old(loading)
      ensures outcome.LoggedIn? ==>
        success && message.None? && storage == StoreSession(old(storage), outcome.user) && user == Some(outcome.user)
      ensures outcome.LoginFailed? ==>
        !success && message == Some(outcome.message) && storage == old(storage) && user == old(user)
    {
      match outcome {
        case LoggedIn(u) =>
          storage := storage["token" := u.token];
          storage := storage["role" := u.role];
          storage := storage["userId" := u.userId];
          if TruthyText(u.teacherId) {
            storage := storage["teacherId" := u.teacherId.value];
          }
          user := Some(u);
          return true, None;
        case LoginFailed(m) =>
          return false, Some(m);
      }
    }

    /** `logout`. */
    method Logout()
      modifies this
      ensures storage == ClearSession(old(storage)) && user.None? && loading == old(loading)
    {
      storage := storage - {"token"};
      storage := storage - {"role"};
      storage := storage - {"userId"};
      storage := storage - {"teacherId"};
      user := None;
    }
  }
}
